/** What every interleaving of fork, exit and wait keeps, and the exit/wait handshake. */
module WaitSafety {
  import opened Basics
  import opened ProcTable
  import opened ProcSafety
  import opened WaitExit

  /** Event e takes w, where the invariant holds, to v. */
  ghost predicate Moves(w: World, e: Event, v: World) {
    && Sized(v) && Sized(w) && |v.prog| == |w.prog| && v.init == w.init && Actor(e) < |w.prog|
    && WorldInv(w) && Inv(v.t) && WorldStep(w, e) == Some(v)
  }

  lemma StepMoves(w: World, e: Event)
    requires WorldInv(w) && WorldStep(w, e).Some?
    ensures Moves(w, e, WorldStep(w, e).value)
  {
    hide Next, Inv, Plan, ProgFits, Scanned, Disowned, Handshake, Family;
    var m := Plan(w, e).value;
    if m.op.Some? { StepKeeps(w.t, m.op.value); }
    SameParents(w, e);
  }

  lemma SameParents(w: World, e: Event)
    requires Sized(w) && Actor(e) < |w.prog| && Plan(w, e).Some?
    ensures |Plan(w, e).value.parent| == |w.parent|
  {
  }

  lemma Known(w: World, p: nat)
    requires WorldInv(w) && p < |w.prog|
    ensures Sized(w) && Inv(w.t) && ProgFits(w, p) && Fits(w.t, p) && Scanned(w, p) && Disowned(w, p)
  {
    hide ProgFits, Fits, Handshake, Family, Scanned, Disowned;
  }

  lemma FamilyKnown(w: World)
    requires WorldInv(w)
    ensures Sized(w) && Family(w)
  {
    hide ProgFits, Inv, Handshake, Family, Scanned, Disowned;
  }

  lemma Unborn(w: World, i: nat)
    requires WorldInv(w) && i < |w.prog| && w.t.procs[i].status.UNUSED?
    ensures w.parent[i].None?
  {
    hide WorldInv, Inv;
    FamilyKnown(w);
  }

  lemma FitsAt(t: Table, j: nat)
    requires Inv(t) && j < |t.procs|
    ensures Fits(t, j)
  {
    hide Fits;
  }

  // The kernel step of an event, if it has one, is its process's.
  lemma Op(w: World, e: Event, v: World)
    requires Moves(w, e, v)
    ensures Sized(v) && Sized(w) && |v.prog| == |w.prog| && v.init == w.init && Actor(e) < |w.prog|
    ensures WorldInv(w) && Plan(w, e).Some? && Inv(w.t) && Inv(v.t)
    ensures var m := Plan(w, e).value;
            && v.parent == m.parent && v.prog == NewProgs(w, Actor(e), m)
            && if m.op.None? then v.t == w.t else m.op.value.p == Actor(e) && Next(w.t, m.op.value) == Some(v.t)
  {
    hide Next, Inv, WorldInv, NewProgs;
    WorldInvSized(w);
  }

  lemma WorldInvSized(w: World)
    requires WorldInv(w)
    ensures Sized(w) && Inv(w.t)
  {
    hide Inv, ProgFits, Scanned, Disowned, Handshake, Family;
  }

  // ---- what an event can change ----

  // How the parent of i may go from a to b in a step of p.
  predicate ParentMove(w: World, p: nat, i: nat, b: Option<nat>)
    requires Sized(w) && p < |w.prog| && i < |w.prog|
  {
    var a := w.parent[i];
    || b == a
    || (w.prog[p] == ExitScan(i) && a == Some(p) && b == Some(w.init))
    || (w.prog[p] == ForkSet(i) && a.None? && b == Some(p))
    || (w.prog[p].WaitTest? && w.prog[p].i == i && a == Some(p) && b.None? && w.t.procs[i].status.ZOMBIE?)
  }

  lemma KernelParents(w: World, s: Step)
    requires Sized(w) && s.p < |w.prog| && KernelMove(w, s).Some?
    ensures KernelMove(w, s).value.parent == w.parent && KernelMove(w, s).value.op == Some(s)
  {
  }

  lemma PlannedParents(w: World, e: Event, i: nat)
    requires Sized(w) && Actor(e) < |w.prog| && i < |w.prog| && Plan(w, e).Some? && ProgFits(w, Actor(e))
    ensures |Plan(w, e).value.parent| == |w.prog| && ParentMove(w, Actor(e), i, Plan(w, e).value.parent[i])
  {
    hide KernelMove, HoldsLock;
    if e.Kernel? { KernelParents(w, e.s); }
  }

  lemma Parents(w: World, e: Event, v: World, i: nat)
    requires Moves(w, e, v) && i < |w.prog|
    ensures ParentMove(w, Actor(e), i, v.parent[i])
  {
    hide WorldInv, Inv, Fits, Next, Moves, WorldStep, NewProgs, Plan, ProgFits, ParentMove;
    Op(w, e, v);
    Known(w, Actor(e));
    PlannedParents(w, e, i);
  }

  // How the status of i may become y in a step of p.
  predicate StatusMove(w: World, p: nat, i: nat, y: Status)
    requires Sized(w) && p < |w.prog| && i < |w.prog|
  {
    var x := w.t.procs[i].status;
    || y == x
    || (IsLive(x) && IsLive(y))
    || (x.RUNNING? && y.ZOMBIE? && i == p && w.prog[p].ExitMark?)
    || (x.UNUSED? && y.USED? && w.prog[p] == ForkLocked(i))
    || (x.USED? && y.RUNNABLE? && w.prog[p] == ForkGo(i))
    || (x.USED? && y.UNUSED? && w.prog[p] == ForkMade(i))
    || (x.ZOMBIE? && y.UNUSED? && w.prog[p].WaitTest? && w.prog[p].i == i)
  }

  lemma PlannedStatuses(w: World, e: Event, i: nat, y: Status)
    requires Sized(w) && Actor(e) < |w.prog| && i < |w.prog| && Plan(w, e).Some? && ProgFits(w, Actor(e))
    requires Plan(w, e).value.op.Some? && StatusMoves(Plan(w, e).value.op.value, i, w.t.procs[i].status, y)
    ensures StatusMove(w, Actor(e), i, y)
  {
    hide KernelMove, HoldsLock;
    if e.Kernel? { KernelParents(w, e.s); KernelEntries(w, e.s); }
  }

  lemma KernelEntries(w: World, s: Step)
    requires Sized(w) && s.p < |w.prog| && KernelMove(w, s).Some?
    ensures !s.MarkZombie? && !s.Spawn? && !s.Start? && !s.Reap?
  {
  }

  lemma Statuses(w: World, e: Event, v: World, i: nat)
    requires Moves(w, e, v) && i < |w.prog|
    ensures StatusMove(w, Actor(e), i, v.t.procs[i].status)
  {
    hide WorldInv, Inv, Fits, Next, Moves, WorldStep, NewProgs, Plan, ProgFits, StatusMoves, StatusMove;
    Op(w, e, v);
    Known(w, Actor(e));
    var m := Plan(w, e).value;
    if m.op.Some? {
      StatusStep(w.t, m.op.value, i);
      PlannedStatuses(w, e, i, v.t.procs[i].status);
    } else {
      SameStatus(w, Actor(e), i);
    }
  }

  lemma SameStatus(w: World, p: nat, i: nat)
    requires Sized(w) && p < |w.prog| && i < |w.prog|
    ensures StatusMove(w, p, i, w.t.procs[i].status)
  {
  }

  // Who is freed: a zombie in wait, or in fork an entry that has just been made.
  lemma ReapPlans(w: World, e: Event)
    requires Sized(w) && Actor(e) < |w.prog| && Plan(w, e).Some? && ProgFits(w, Actor(e))
    requires Plan(w, e).value.op.Some? && Plan(w, e).value.op.value.Reap?
    ensures var q := Plan(w, e).value.op.value.i;
            q < |w.prog| && (w.t.procs[q].status.USED? || (w.prog[Actor(e)].WaitTest? && w.t.procs[q].status.ZOMBIE?))
  {
    hide HoldsLock;
  }

  lemma Progs(w: World, e: Event, v: World, q: nat)
    requires Moves(w, e, v) && q < |w.prog| && q != Actor(e)
    ensures || v.prog[q] == w.prog[q]
            || (v.prog[q] == User && w.t.procs[q].status.ZOMBIE? && v.t.procs[q].pc.Gone? && w.prog[Actor(e)].WaitTest?)
            || (v.prog[q] == User && w.t.procs[q].status.USED? && v.t.procs[q].pc.Gone?)
    ensures w.t.procs[q].status.ZOMBIE? && v.t.procs[q].status.UNUSED? ==> v.prog[q] == User
  {
    hide WorldInv, Inv, Fits, Moves, WorldStep, Next, Plan, ProgFits;
    Op(w, e, v);
    Known(w, Actor(e));
    var m := Plan(w, e).value;
    if m.op.Some? {
      Changed(w.t, m.op.value, q);
      if m.op.value.Reap? {
        ReapPlans(w, e);
        Touches(w.t, m.op.value);
      }
    }
  }

  // What q holds, has done and is doing, when another process moves.
  lemma Others(w: World, e: Event, v: World, q: nat)
    requires Moves(w, e, v) && q < |w.prog| && q != Actor(e)
    ensures Owns(v, q) <==> Owns(w, q)
    ensures forall d :: d in w.t.done && d.0 == q ==> d in v.t.done
    ensures forall i: nat :: HasLock(w, q, i) ==> HasLock(v, q, i)
    ensures if w.t.procs[q].pc.Embryo? || w.t.procs[q].pc.Gone? then v.t.procs[q].pc.Embryo? || v.t.procs[q].pc.Gone?
            else v.t.procs[q].pc == w.t.procs[q].pc
  {
    hide WorldInv, Inv, Fits, Next, Moves, WorldStep, NewProgs, Plan;
    Op(w, e, v);
    var m := Plan(w, e).value;
    if m.op.Some? {
      Bystander(w.t, m.op.value, q);
      assert Owns(v, q) <==> WAIT in Holds(v.t, q);
      assert Owns(w, q) <==> WAIT in Holds(w.t, q);
      forall i: nat | HasLock(w, q, i) ensures HasLock(v, q, i) { KeepsProcLock(w.t, m.op.value, q, i); }
    }
  }

  // ---- every process's place still fits ----

  lemma OneMaker(w: World, p: nat, q: nat)
    requires WorldInv(w) && p < |w.prog| && q < |w.prog| && p != q && ForkTarget(w.prog[p]).Some?
    ensures ForkTarget(w.prog[q]) != ForkTarget(w.prog[p])
  {
    hide ProgFits, Handshake, Family, Scanned, Disowned, Inv;
  }

  // A child being made is left alone by everybody but its maker.
  lemma ForkedKept(w: World, e: Event, v: World, q: nat, i: nat)
    requires Moves(w, e, v) && q < |w.prog| && q != Actor(e)
    requires ForkTarget(w.prog[q]) == Some(i)
    ensures Making(w, i) && Making(v, i) && (v.parent[i].None? <==> w.parent[i].None?)
  {
    hide WorldInv, Inv, Fits, Next, Moves, WorldStep, Plan;
    Op(w, e, v);
    Known(w, q);
    Known(w, Actor(e));
    OneMaker(w, q, Actor(e));
    Parents(w, e, v, i);
    Statuses(w, e, v, i);
  }

  lemma BystanderFits(w: World, e: Event, v: World, q: nat)
    requires Moves(w, e, v) && q < |w.prog| && q != Actor(e)
    ensures ProgFits(v, q)
  {
    hide WorldInv, Inv, Next, Moves, WorldStep, Plan;
    Op(w, e, v);
    Known(w, q);
    Known(w, Actor(e));
    Progs(w, e, v, q);
    Others(w, e, v, q);
    var g := w.prog[q];
    if v.prog[q] == g {
      Parents(w, e, v, q);
      Statuses(w, e, v, q);
      FitsAt(v.t, q);
      if g.WaitTest? { Parents(w, e, v, g.i); }
      if ForkTarget(g).Some? { MakerFits(w, e, v, q); }
    }
  }

  lemma MakerFits(w: World, e: Event, v: World, q: nat)
    requires Moves(w, e, v) && q < |w.prog| && q != Actor(e)
    requires ForkTarget(w.prog[q]).Some? && v.prog[q] == w.prog[q]
    ensures ProgFits(v, q)
  {
    hide WorldInv, Inv, Next, Moves, WorldStep, Plan;
    Op(w, e, v);
    Known(w, q);
    ForkedKept(w, e, v, q, ForkTarget(w.prog[q]).value);
    Others(w, e, v, q);
  }

  predicate InWait(g: Prog) {
    g.User? || g.WaitScan? || g.WaitTest? || g.WaitFreed? || g.WaitLeave? || g.WaitSleep?
  }

  predicate InExit(g: Prog) {
    g.ExitScan? || g.ExitTellInit? || g.ExitTell? || g.ExitLock? || g.ExitMark? || g.ExitRelease? || g.ExitDone?
  }

  // The actor's wait_lock and place, before and after, and what it does to an entry.
  lemma ActorTurns(w: World, e: Event, v: World)
    requires Moves(w, e, v)
    ensures Sized(w) && Sized(v) && Actor(e) < |w.prog| == |v.prog| && Plan(w, e).Some?
    ensures var p, op := Actor(e), Plan(w, e).value.op;
            && Turned(WAIT, op, Owns(w, p), w.t.procs[p].pc, Owns(v, p), v.t.procs[p].pc)
            && (op.Some? ==> op.value.p == p)
            && (op.Some? && OnEntry(op.value) ==>
                  && Entry(op.value) < |w.prog|
                  && Touched(op.value, w.t.procs[Entry(op.value)], v.t.procs[Entry(op.value)]))
            && (op.None? || op.value.Acquire? || op.value.Release? ==> v.t.procs == w.t.procs)
  {
    hide WorldInv, Inv, Fits, Next, Moves, WorldStep, Plan, Turn, HoldsLock, Touched;
    Op(w, e, v);
    var op := Plan(w, e).value.op;
    if op.Some? {
      Turns(w.t, op.value, WAIT);
      if OnEntry(op.value) { Touches(w.t, op.value); }
      if op.value.Acquire? || op.value.Release? { SpinlockOnly(w.t, op.value); }
    }
  }

  // Steps of sleep, wakeup and the scheduler, and those of a process outside fork, exit and wait.
  lemma KernelActor(w: World, s: Step, v: World)
    requires Moves(w, Kernel(s), v)
    ensures Sized(w) && Sized(v) && s.p < |w.prog| == |v.prog| && KernelMove(w, s).Some? && ProgFits(w, s.p)
    ensures v.parent == w.parent && v.init == w.init && v.prog[s.p] == KernelMove(w, s).value.next
    ensures Turn(WAIT, s, Owns(w, s.p), w.t.procs[s.p].pc, Owns(v, s.p), v.t.procs[s.p].pc)
  {
    hide WorldInv, Inv, Next, Fits, Moves, WorldStep, HoldsLock, Scanned, Disowned, KernelMove, Turn, ProgFits;
    Op(w, Kernel(s), v);
    Known(w, s.p);
    ActorTurns(w, Kernel(s), v);
    KernelParents(w, s);
  }

  lemma KernelInWait(w: World, s: Step, v: World)
    requires Moves(w, Kernel(s), v) && InWait(w.prog[s.p])
    ensures ProgFits(v, s.p)
  {
    hide WorldInv, Inv, Next, Fits, Moves, WorldStep, HoldsLock, Scanned, Disowned, ForkTarget, NewProgs;
    KernelActor(w, s, v);
  }

  lemma KernelInExit(w: World, s: Step, v: World)
    requires Moves(w, Kernel(s), v) && InExit(w.prog[s.p])
    ensures ProgFits(v, s.p)
  {
    hide WorldInv, Inv, Next, Fits, Moves, WorldStep, HoldsLock, Scanned, Disowned, ForkTarget, NewProgs;
    KernelActor(w, s, v);
    Statuses(w, Kernel(s), v, s.p);
  }

  lemma KernelInFork(w: World, s: Step, v: World)
    requires Moves(w, Kernel(s), v) && !InWait(w.prog[s.p]) && !InExit(w.prog[s.p])
    ensures ProgFits(v, s.p)
  {
    hide WorldInv, Inv, Next, Fits, Moves, WorldStep, HoldsLock, Scanned, Disowned, ForkTarget, NewProgs;
    KernelActor(w, s, v);
    if w.prog[s.p].i < |w.prog| { Statuses(w, Kernel(s), v, w.prog[s.p].i); }
  }

  lemma KernelFits(w: World, s: Step, v: World)
    requires Moves(w, Kernel(s), v)
    ensures ProgFits(v, s.p)
  {
    hide WorldInv, Inv, WorldStep, ProgFits;
    if InWait(w.prog[s.p]) { KernelInWait(w, s, v); }
    else if InExit(w.prog[s.p]) { KernelInExit(w, s, v); }
    else { KernelInFork(w, s, v); }
  }

  lemma WaiterFits(w: World, p: nat, k: nat, v: World)
    requires Moves(w, Do(p, k), v) && InWait(w.prog[p])
    ensures ProgFits(v, p)
  {
    hide WorldInv, Inv, Next, Fits, Moves, WorldStep, HoldsLock, Scanned, Disowned;
    Op(w, Do(p, k), v);
    Known(w, p);
    ActorTurns(w, Do(p, k), v);
  }

  lemma ExiterFits(w: World, p: nat, k: nat, v: World)
    requires Moves(w, Do(p, k), v) && InExit(w.prog[p])
    ensures ProgFits(v, p)
  {
    hide WorldInv, Inv, Next, Fits, Moves, WorldStep, HoldsLock, Scanned, Disowned;
    Op(w, Do(p, k), v);
    Known(w, p);
    ActorTurns(w, Do(p, k), v);
    ZombieAt(v.t, p);
  }

  lemma ZombieAt(t: Table, p: nat)
    requires Inv(t) && p < |t.procs|
    ensures t.procs[p].pc.Exiting? ==> t.procs[p].status.ZOMBIE?
  {
    FitsAt(t, p);
    hide Inv;
  }

  lemma ForkerFits(w: World, p: nat, k: nat, v: World)
    requires Moves(w, Do(p, k), v) && !InWait(w.prog[p]) && !InExit(w.prog[p])
    ensures ProgFits(v, p)
  {
    hide WorldInv, Inv, Next, Fits, Moves, WorldStep, HoldsLock, Scanned, Disowned;
    Op(w, Do(p, k), v);
    Known(w, p);
    ActorTurns(w, Do(p, k), v);
    if w.prog[p].ForkLocked? && w.t.procs[w.prog[p].i].status.UNUSED? { Unborn(w, w.prog[p].i); }
  }

  /** Every event keeps every process's locks and table entry in step with its program. */
  lemma EventFits(w: World, e: Event, v: World, q: nat)
    requires Moves(w, e, v) && q < |w.prog|
    ensures ProgFits(v, q)
  {
    hide WorldInv, Inv, WorldStep, ProgFits;
    if q != Actor(e) { BystanderFits(w, e, v, q); }
    else if e.Kernel? { KernelFits(w, e.s, v); }
    else if InWait(w.prog[q]) { WaiterFits(w, q, e.k, v); }
    else if InExit(w.prog[q]) { ExiterFits(w, q, e.k, v); }
    else { ForkerFits(w, q, e.k, v); }
  }

  // ---- makers and families ----

  lemma TargetStep(w: World, e: Event, v: World)
    requires Moves(w, e, v)
    ensures Actor(e) < |w.prog| == |v.prog| && Sized(w) && Sized(v)
    ensures var p := Actor(e);
            || ForkTarget(v.prog[p]).None?
            || ForkTarget(v.prog[p]) == ForkTarget(w.prog[p])
            || (w.prog[p].ForkLocked? && ForkTarget(v.prog[p]) == Some(w.prog[p].i)
                && w.prog[p].i < |w.prog| && w.t.procs[w.prog[p].i].status.UNUSED?)
  {
    hide WorldInv, Inv, Moves, WorldStep, Next, Fits;
    Op(w, e, v);
    Known(w, Actor(e));
  }

  lemma MakersKept(w: World, e: Event, v: World, p: nat, q: nat)
    requires Moves(w, e, v) && p < |v.prog| && q < |v.prog| && p != q && ForkTarget(v.prog[p]).Some?
    ensures ForkTarget(v.prog[q]) != ForkTarget(v.prog[p])
  {
    hide WorldInv, Inv, Moves, WorldStep, Next, Fits, Plan;
    Op(w, e, v);
    TargetStep(w, e, v);
    Known(w, p);
    Known(w, q);
    if p != Actor(e) { Progs(w, e, v, p); }
    if q != Actor(e) { Progs(w, e, v, q); }
    if ForkTarget(w.prog[p]).Some? { OneMaker(w, p, q); }
    if ForkTarget(w.prog[q]).Some? { OneMaker(w, q, p); }
  }

  // wait frees a zombie child together with its parent field.
  lemma Reaped(w: World, e: Event, v: World, i: nat)
    requires Moves(w, e, v) && i < |w.prog|
    requires w.prog[Actor(e)].WaitTest? && w.prog[Actor(e)].i == i && w.t.procs[i].status.ZOMBIE?
    requires v.parent[i] != w.parent[i] || v.t.procs[i].status.UNUSED?
    ensures v.parent[i].None? && v.t.procs[i].status.UNUSED?
  {
    hide WorldInv, Inv, Moves, WorldStep, Fits;
    Op(w, e, v);
    Known(w, Actor(e));
  }

  lemma LiveKept(w: World, e: Event, v: World, j: nat)
    requires Moves(w, e, v) && Live(w, j) && !Live(v, j)
    ensures Actor(e) == j && j != w.init && w.prog[j].ExitMark? && forall i :: 0 <= i < |w.prog| ==>
      w.parent[i] != Some(j)
  {
    hide WorldInv, Inv, Moves, WorldStep, Next, Plan, Fits;
    Op(w, e, v);
    Known(w, Actor(e));
    Statuses(w, e, v, j);
  }

  lemma ParentLives(w: World, e: Event, v: World, i: nat)
    requires Moves(w, e, v) && i < |v.prog| && v.parent[i].Some?
    ensures Live(v, v.parent[i].value)
  {
    hide WorldInv, Inv, Moves, WorldStep, Next, Plan, Live;
    Op(w, e, v);
    FamilyKnown(w);
    Known(w, Actor(e));
    var j := v.parent[i].value;
    assert Live(w, j) by {
      Parents(w, e, v, i);
      if j == Actor(e) && w.parent[i] != v.parent[i] { RunnerLives(w, j); }
    }
    if !Live(v, j) {
      LiveKept(w, e, v, j);
      Parents(w, e, v, i);
    }
  }

  lemma RunnerLives(w: World, p: nat)
    requires Sized(w) && p < |w.prog| && (Fits(w.t, p) && w.t.procs[p].pc.Run?)
    ensures Live(w, p)
  {
  }

  lemma ParentThere(w: World, e: Event, v: World, i: nat)
    requires Moves(w, e, v) && i < |v.prog|
    ensures i != v.init && (Live(v, i) || v.t.procs[i].status.ZOMBIE?) ==> v.parent[i].Some?
  {
    hide WorldInv, Inv, Moves, WorldStep, Next, Plan, Fits;
    Op(w, e, v);
    FamilyKnown(w);
    Known(w, Actor(e));
    Parents(w, e, v, i);
    Statuses(w, e, v, i);
    if w.prog[Actor(e)].WaitTest? && w.prog[Actor(e)].i == i && w.t.procs[i].status.ZOMBIE?
       && (v.parent[i] != w.parent[i] || v.t.procs[i].status.UNUSED?) {
      Reaped(w, e, v, i);
    }
  }

  lemma ParentGone(w: World, e: Event, v: World, i: nat)
    requires Moves(w, e, v) && i < |v.prog|
    ensures v.t.procs[i].status.UNUSED? ==> v.parent[i].None?
  {
    hide WorldInv, Inv, Moves, WorldStep, Next, Plan, Fits;
    Op(w, e, v);
    FamilyKnown(w);
    Known(w, Actor(e));
    Parents(w, e, v, i);
    Statuses(w, e, v, i);
    if w.prog[Actor(e)].WaitTest? && w.prog[Actor(e)].i == i && w.t.procs[i].status.ZOMBIE?
       && (v.parent[i] != w.parent[i] || v.t.procs[i].status.UNUSED?) {
      Reaped(w, e, v, i);
    }
  }

  lemma FamilyKept(w: World, e: Event, v: World)
    requires Moves(w, e, v)
    ensures Family(v)
  {
    hide WorldInv, Inv, Moves, WorldStep, Next, Plan, Fits, Live;
    Op(w, e, v);
    FamilyKnown(w);
    if !Live(v, w.init) { LiveKept(w, e, v, w.init); }
    forall i | 0 <= i < |v.prog| && v.parent[i].Some? ensures Live(v, v.parent[i].value) { ParentLives(w, e, v, i); }
    forall i | 0 <= i < |v.prog|
      ensures i != v.init && (Live(v, i) || v.t.procs[i].status.ZOMBIE?) ==> v.parent[i].Some?
      ensures v.t.procs[i].status.UNUSED? ==> v.parent[i].None?
    {
      ParentThere(w, e, v, i);
      ParentGone(w, e, v, i);
    }
  }

  lemma DisownedKept(w: World, e: Event, v: World, q: nat)
    requires Moves(w, e, v) && q < |v.prog|
    ensures Disowned(v, q)
  {
    hide WorldInv, Inv, Moves, WorldStep, Next, Plan, Fits;
    Op(w, e, v);
    Known(w, q);
    if q == Actor(e) { DisownedByActor(w, e, v); }
    else {
      Progs(w, e, v, q);
      forall i | 0 <= i < |v.prog| && w.parent[i] != Some(q) && q != w.init
        ensures v.parent[i] != Some(q)
      {
        Parents(w, e, v, i);
      }
    }
  }

  // Only exit's own loop moves its position, and only past entries that are not its children.
  lemma ExitMoves(w: World, e: Event, v: World)
    requires Moves(w, e, v)
    ensures Actor(e) < |w.prog| == |v.prog| && Sized(w) && Sized(v)
    ensures var p := Actor(e);
            match v.prog[p]
            case ExitScan(k) =>
              || v.prog[p] == w.prog[p] || k == 0 || w.prog[p] == ExitTellInit(k - 1)
              || (w.prog[p] == ExitScan(k - 1) && k - 1 < |v.prog| && v.parent[k - 1] != Some(p))
            case ExitTellInit(k) =>
              v.prog[p] == w.prog[p] || (w.prog[p] == ExitScan(k) && k < |v.prog| && v.parent[k] != Some(p))
            case ExitTell => v.prog[p] == w.prog[p] || w.prog[p] == ExitScan(|w.prog|)
            case ExitLock => v.prog[p] == w.prog[p] || w.prog[p].ExitTell?
            case ExitMark => v.prog[p] == w.prog[p] || w.prog[p].ExitLock?
            case _ => true
  {
    hide WorldInv, Inv, Moves, WorldStep, Next, Fits, Disowned, Scanned, Plan;
    Op(w, e, v);
    Known(w, Actor(e));
    ExitPlans(w, e);
  }

  // The same of what is planned.
  lemma ExitPlans(w: World, e: Event)
    requires Sized(w) && Actor(e) < |w.prog| && Plan(w, e).Some? && ProgFits(w, Actor(e))
    ensures |Plan(w, e).value.parent| == |w.prog|
    ensures var p, m := Actor(e), Plan(w, e).value;
            match m.next
            case ExitScan(k) =>
              || m.next == w.prog[p] || k == 0 || w.prog[p] == ExitTellInit(k - 1)
              || (w.prog[p] == ExitScan(k - 1) && k - 1 < |w.prog| && m.parent[k - 1] != Some(p))
            case ExitTellInit(k) =>
              m.next == w.prog[p] || (w.prog[p] == ExitScan(k) && k < |w.prog| && m.parent[k] != Some(p))
            case ExitTell => m.next == w.prog[p] || w.prog[p] == ExitScan(|w.prog|)
            case ExitLock => m.next == w.prog[p] || w.prog[p].ExitTell?
            case ExitMark => m.next == w.prog[p] || w.prog[p].ExitLock?
            case _ => true
  {
  }

  lemma DisownedByActor(w: World, e: Event, v: World)
    requires Moves(w, e, v)
    ensures Actor(e) < |v.prog| && Sized(v) && Disowned(v, Actor(e))
  {
    hide WorldInv, Inv, Moves, WorldStep, Next, Fits, Plan;
    Op(w, e, v);
    ExitMoves(w, e, v);
    Known(w, Actor(e));
    forall i | 0 <= i < |v.prog| && w.parent[i] != Some(Actor(e)) && InExit(w.prog[Actor(e)])
      ensures v.parent[i] != Some(Actor(e))
    {
      Parents(w, e, v, i);
    }
  }

  // ---- the handshake ----

  /** How a process gets a zombie child: the child exits, or init inherits it. */
  lemma NewZombieChild(w: World, e: Event, v: World, j: nat, i: nat)
    requires Moves(w, e, v) && ZombieChild(v, j, i) && !ZombieChild(w, j, i)
    ensures Owns(w, Actor(e))
    ensures var p := Actor(e);
            || (w.prog[p].ExitMark? && i == p && w.parent[p] == Some(j))
            || (w.prog[p] == ExitScan(i) && j == w.init && Owns(v, p) && v.prog[p] == ExitTellInit(i))
  {
    hide WorldInv, Inv, Moves, WorldStep, Next, Plan, Fits;
    Op(w, e, v);
    Known(w, Actor(e));
    Parents(w, e, v, i);
    Statuses(w, e, v, i);
    if w.prog[Actor(e)] == ExitScan(i) && v.parent[i] != w.parent[i] { Inherits(w, e, v, i); }
  }

  lemma Inherits(w: World, e: Event, v: World, i: nat)
    requires Moves(w, e, v) && i < |w.prog| && w.prog[Actor(e)] == ExitScan(i) && v.parent[i] != w.parent[i]
    ensures Owns(v, Actor(e)) && v.prog[Actor(e)] == ExitTellInit(i)
  {
    hide WorldInv, Inv, Moves, WorldStep, Fits;
    Op(w, e, v);
    Known(w, Actor(e));
  }

  lemma NewSleeper(w: World, e: Event, v: World, j: nat)
    requires Moves(w, e, v) && j < |w.prog| && AsleepInWait(v, j) && !AsleepInWait(w, j)
    ensures j == Actor(e) && w.prog[j].WaitSleep? && w.t.procs[j].pc.Locked?
    ensures v.parent == w.parent && forall i :: 0 <= i < |w.prog| ==> v.t.procs[i].status == w.t.procs[i].status
  {
    hide WorldInv, Inv, Moves, WorldStep, Next, Plan, Fits, Asleep;
    Op(w, e, v);
    var m := Plan(w, e).value;
    assert m.op.Some?;
    StepPutsToSleep(w.t, m.op.value, j, j + 1, WAIT);
    Known(w, j);
    SleepReleaseKeeps(w, e, v);
  }

  lemma SleepReleaseKeeps(w: World, e: Event, v: World)
    requires Moves(w, e, v) && Plan(w, e).value.op == Some(SleepRelease(Actor(e)))
    ensures Sized(w) && Sized(v) && |v.prog| == |w.prog|
    ensures v.parent == w.parent && forall i :: 0 <= i < |w.prog| ==> v.t.procs[i].status == w.t.procs[i].status
  {
    hide WorldInv, Inv, Moves, WorldStep, Fits, Asleep, NewProgs;
    Op(w, e, v);
  }

  lemma FreshSleeperScanned(w: World, e: Event, v: World, j: nat, i: nat)
    requires Moves(w, e, v) && j < |w.prog| && AsleepInWait(v, j) && !AsleepInWait(w, j)
    ensures !ZombieChild(v, j, i)
  {
    hide WorldInv, Inv, Moves, WorldStep, Next, Plan, Fits, Asleep;
    Op(w, e, v);
    NewSleeper(w, e, v, j);
    Known(w, j);
    assert i < |w.prog| ==> !ZombieChild(w, j, i);
  }

  lemma HandshakeAt(w: World, e: Event, v: World, i: nat, j: nat)
    requires Moves(w, e, v) && j < |v.prog| && ZombieChild(v, j, i) && AsleepInWait(v, j)
    ensures BeingTold(v, j)
  {
    hide WorldInv, Inv, Moves, WorldStep, Next, Plan, Fits, Asleep;
    Op(w, e, v);
    if !AsleepInWait(w, j) {
      FreshSleeperScanned(w, e, v, j, i);
    } else if ZombieChild(w, j, i) {
      HandshakeKnown(w, i, j);
      StillTold(w, e, v, j);
    } else {
      NewZombieChild(w, e, v, j, i);
      Known(w, Actor(e));
      if w.prog[Actor(e)].ExitMark? {
        DoneMeans(w.t, Actor(e), j + 1, WAIT, j);
      }
    }
  }

  lemma HandshakeKnown(w: World, i: nat, j: nat)
    requires WorldInv(w) && j < |w.prog| && ZombieChild(w, j, i) && AsleepInWait(w, j)
    ensures BeingTold(w, j)
  {
    hide Inv, ProgFits, Scanned, Disowned, Family, ZombieChild, Asleep, AsleepInWait, BeingTold;
  }

  // init is being woken until it has been.
  lemma StillTold(w: World, e: Event, v: World, j: nat)
    requires Moves(w, e, v) && j < |v.prog| && BeingTold(w, j) && AsleepInWait(v, j)
    ensures BeingTold(v, j)
  {
    hide WorldInv, Inv, Moves, WorldStep, Next, Plan, Fits, Asleep;
    Op(w, e, v);
    var h := w.t.held[WAIT];
    Known(w, h);
    if h != Actor(e) {
      Others(w, e, v, h);
      Progs(w, e, v, h);
      ProgStays(w, e, v, h);
    } else {
      TellerMoves(w, e, v);
      if v.prog[h] != w.prog[h] { DoneMeans(v.t, h, w.init + 1, WAIT, j); }
    }
  }

  // The holder of wait_lock is not freed.
  lemma ProgStays(w: World, e: Event, v: World, q: nat)
    requires Moves(w, e, v) && q < |w.prog| && q != Actor(e) && Owns(w, q)
    ensures Sized(v) && |v.prog| == |w.prog| && v.prog[q] == w.prog[q]
  {
    hide WorldInv, Inv, Moves, WorldStep, Next, Plan;
    Op(w, e, v);
    Known(w, q);
    Known(w, Actor(e));
    Progs(w, e, v, q);
  }

  lemma TellerMoves(w: World, e: Event, v: World)
    requires Moves(w, e, v) && w.prog[Actor(e)].ExitTellInit?
    ensures Sized(w) && Sized(v) && |v.prog| == |w.prog|
    ensures Owns(v, Actor(e))
    ensures v.prog[Actor(e)] == w.prog[Actor(e)] || (Actor(e), w.init + 1, WAIT) in v.t.done
  {
    hide WorldInv, Inv, Moves, WorldStep, Fits;
    Op(w, e, v);
    Known(w, Actor(e));
  }

  // The three places of wait that remember a scan, and how a process gets there.
  predicate ReachesScan(w: World, v: World, p: nat, k: nat)
    requires Sized(w) && Sized(v) && p < |w.prog| == |v.prog|
  {
    || v.prog[p] == w.prog[p] || k == 0
    || (w.prog[p].WaitScan? && w.prog[p].i == k - 1 && k - 1 < |w.prog| && !ZombieChild(v, p, k - 1))
    || (w.prog[p].WaitTest? && w.prog[p].i == k - 1 && !ZombieChild(v, p, k - 1))
  }

  predicate ReachesTest(w: World, v: World, p: nat, k: nat)
    requires p < |w.prog| == |v.prog|
  {
    v.prog[p] == w.prog[p] || (w.prog[p].WaitScan? && w.prog[p].i == k)
  }

  predicate ReachesSleep(w: World, v: World, p: nat)
    requires Sized(w) && Sized(v) && p < |w.prog| == |v.prog|
  {
    v.t.procs[p].pc.Enter? || v.t.procs[p].pc.Locked? ==>
      || (w.prog[p].WaitSleep? && (w.t.procs[p].pc.Enter? || w.t.procs[p].pc.Locked?))
      || (w.prog[p].WaitScan? && w.prog[p].i == |w.prog|)
  }

  lemma ScanFrom(w: World, e: Event, v: World)
    requires Moves(w, e, v)
    ensures Actor(e) < |w.prog| == |v.prog| && Sized(w) && Sized(v)
    ensures v.prog[Actor(e)].WaitScan? ==> ReachesScan(w, v, Actor(e), v.prog[Actor(e)].i)
  {
    hide WorldInv, Inv, Moves, WorldStep, Next, Plan, ProgFits, Disowned, Scanned, Fits;
    Op(w, e, v);
    Known(w, Actor(e));
    ScanPlans(w, e);
    var p, m := Actor(e), Plan(w, e).value;
    if m.next.WaitScan? && m.next.i != 0 && w.prog[p].WaitTest? { UnlockKeepsStatus(w.t, p, w.prog[p].i, v.t); }
  }

  // The same of what is planned.
  lemma ScanPlans(w: World, e: Event)
    requires Sized(w) && Actor(e) < |w.prog| && Plan(w, e).Some? && ProgFits(w, Actor(e))
    ensures var p, m := Actor(e), Plan(w, e).value;
            m.next.WaitScan? && m.next != w.prog[p] && m.next.i != 0 ==>
              && (w.prog[p].WaitScan? || w.prog[p].WaitTest?) && w.prog[p].i == m.next.i - 1 < |w.prog|
              && !ZombieChild(w, p, m.next.i - 1) && m.parent == w.parent
              && m.op == if w.prog[p].WaitScan? then None else Some(UnlockProc(p, w.prog[p].i))
  {
  }

  lemma UnlockKeepsStatus(t: Table, p: nat, i: nat, u: Table)
    requires Next(t, UnlockProc(p, i)) == Some(u)
    ensures |u.procs| == |t.procs| && forall j :: 0 <= j < |t.procs| ==> u.procs[j].status == t.procs[j].status
  {
  }

  lemma TestFrom(w: World, e: Event, v: World)
    requires Moves(w, e, v)
    ensures Actor(e) < |w.prog| == |v.prog|
    ensures v.prog[Actor(e)].WaitTest? ==> ReachesTest(w, v, Actor(e), v.prog[Actor(e)].i)
  {
    hide WorldInv, Inv, Next, Moves, WorldStep, Disowned, Scanned, Fits;
    Op(w, e, v);
  }

  lemma SleepPlans(w: World, e: Event, has: bool, pc: Pc)
    requires Sized(w) && Actor(e) < |w.prog| && Plan(w, e).Some?
    requires ProgFits(w, Actor(e)) && Plan(w, e).value.next.WaitSleep?
    requires Turned(WAIT, Plan(w, e).value.op, Owns(w, Actor(e)), w.t.procs[Actor(e)].pc, has, pc)
    requires pc.Enter? || pc.Locked?
    ensures var p := Actor(e);
            || (w.prog[p].WaitSleep? && (w.t.procs[p].pc.Enter? || w.t.procs[p].pc.Locked?))
            || (w.prog[p].WaitScan? && w.prog[p].i == |w.prog|)
  {
    hide HoldsLock;
  }

  lemma SleepFrom(w: World, e: Event, v: World)
    requires Moves(w, e, v)
    ensures Actor(e) < |w.prog| == |v.prog| && Sized(w) && Sized(v)
    ensures v.prog[Actor(e)].WaitSleep? ==> ReachesSleep(w, v, Actor(e))
  {
    hide WorldInv, Inv, Moves, WorldStep, Next, Plan, Turn, Turned, HoldsLock, Disowned, Scanned, Fits;
    Op(w, e, v);
    Known(w, Actor(e));
    ActorTurns(w, e, v);
    var p := Actor(e);
    if v.prog[p].WaitSleep? && (v.t.procs[p].pc.Enter? || v.t.procs[p].pc.Locked?) {
      SleepPlans(w, e, Owns(v, p), v.t.procs[p].pc);
    }
  }

  // Only exit and wait under wait_lock move a process between these places.
  lemma ScanMoves(w: World, e: Event, v: World)
    requires Moves(w, e, v)
    ensures Actor(e) < |w.prog| == |v.prog| && Sized(w) && Sized(v)
    ensures match v.prog[Actor(e)]
            case WaitScan(k, _) => ReachesScan(w, v, Actor(e), k)
            case WaitTest(k, _) => ReachesTest(w, v, Actor(e), k)
            case WaitSleep => ReachesSleep(w, v, Actor(e))
            case _ => true
  {
    hide WorldInv, Inv, Moves, WorldStep, ReachesScan, ReachesTest, ReachesSleep;
    ScanFrom(w, e, v);
    TestFrom(w, e, v);
    SleepFrom(w, e, v);
  }

  // The wakeup of p's parent returns.
  predicate TellsParent(w: World, p: nat, m: Move)
    requires Sized(w) && p < |w.prog|
  {
    w.prog[p].ExitTell? && Owns(w, p) && m.op == Some(WakeReturn(p)) && InWakeup(w.t.procs[p].pc, Address(w.parent[p]))
  }

  lemma RememberPlans(w: World, e: Event, has: bool, pc: Pc)
    requires Sized(w) && Actor(e) < |w.prog| && Plan(w, e).Some? && ProgFits(w, Actor(e))
    requires Turned(WAIT, Plan(w, e).value.op, Owns(w, Actor(e)), w.t.procs[Actor(e)].pc, has, pc)
    ensures var p, m := Actor(e), Plan(w, e).value;
            && ((m.next.ExitLock? || m.next.ExitMark?) && m.op.Some? ==>
                !m.op.value.Release? && !m.op.value.SleepRelease?)
            && (m.next.ExitLock? ==> w.prog[p] == m.next || TellsParent(w, p, m))
            && (m.next.ExitMark? ==> w.prog[p] == m.next || w.prog[p].ExitLock?)
  {
    hide HoldsLock;
  }

  lemma ExitRemembers(w: World, e: Event, v: World)
    requires Moves(w, e, v)
    ensures Actor(e) < |w.prog| == |v.prog| && Sized(w) && Sized(v)
    ensures var p := Actor(e);
            match v.prog[p]
            case ExitLock =>
              || (v.prog[p] == w.prog[p] && v.t.done >= w.t.done)
              || (w.prog[p].ExitTell? && (p, Address(w.parent[p]), WAIT) in v.t.done)
            case ExitMark => v.t.done >= w.t.done && (v.prog[p] == w.prog[p] || w.prog[p].ExitLock?)
            case _ => true
  {
    hide WorldInv, Inv, Moves, WorldStep, Next, Plan, Turn, Turned, ProgFits, HoldsLock, Fits, Disowned, Scanned;
    Op(w, e, v);
    Known(w, Actor(e));
    ActorTurns(w, e, v);
    var p, op := Actor(e), Plan(w, e).value.op;
    RememberPlans(w, e, Owns(v, p), v.t.procs[p].pc);
    if op.Some? {
      if op.value.WakeReturn? && Owns(w, p) { WakeupDone(w.t, op.value, WAIT); }
      if !op.value.Release? && !op.value.SleepRelease? { DoneGrows(w.t, op.value); }
    }
  }

  lemma NoNewZombie(w: World, e: Event, v: World, q: nat, i: nat)
    requires Moves(w, e, v) && q < |w.prog| && ZombieChild(v, q, i) && Owns(w, q)
    requires !w.prog[q].ExitMark? && !w.prog[q].ExitScan?
    ensures ZombieChild(w, q, i)
  {
    hide WorldInv, Inv, Moves, WorldStep, Next, Plan, Fits;
    Op(w, e, v);
    if !ZombieChild(w, q, i) { NewZombieChild(w, e, v, q, i); }
  }

  lemma ScannedByBystander(w: World, e: Event, v: World, q: nat)
    requires Moves(w, e, v) && q < |v.prog| && q != Actor(e)
    ensures Scanned(v, q)
  {
    hide WorldInv, Inv, Moves, WorldStep, Next, Plan, Fits, ZombieChild;
    Op(w, e, v);
    Known(w, q);
    Progs(w, e, v, q);
    Others(w, e, v, q);
    if Owns(w, q) && !w.prog[q].ExitMark? && !w.prog[q].ExitScan? {
      forall i | 0 <= i < |v.prog| && ZombieChild(v, q, i) ensures ZombieChild(w, q, i) { NoNewZombie(w, e, v, q, i); }
    }
    Known(w, Actor(e));
    Parents(w, e, v, q);
  }

  lemma ScannedByActor(w: World, e: Event, v: World)
    requires Moves(w, e, v)
    ensures Actor(e) < |v.prog| && Sized(v) && Scanned(v, Actor(e))
  {
    hide WorldInv, Inv, Moves, WorldStep, Next, Plan, Fits, ZombieChild;
    Op(w, e, v);
    var q := Actor(e);
    Known(w, q);
    ScanMoves(w, e, v);
    ExitRemembers(w, e, v);
    if Owns(w, q) && !w.prog[q].ExitMark? && !w.prog[q].ExitScan? {
      forall i | 0 <= i < |v.prog| && ZombieChild(v, q, i) ensures ZombieChild(w, q, i) { NoNewZombie(w, e, v, q, i); }
    }
    Parents(w, e, v, q);
  }

  /** Every interleaving keeps the invariant. */
  lemma EventKeeps(w: World, e: Event)
    requires WorldInv(w) && WorldStep(w, e).Some?
    ensures WorldInv(WorldStep(w, e).value)
  {
    hide Inv, Moves, WorldStep, Family, ProgFits, Scanned, Disowned, ZombieChild, AsleepInWait, BeingTold, ForkTarget;
    var v := WorldStep(w, e).value;
    StepMoves(w, e);
    Op(w, e, v);
    forall p | 0 <= p < |v.prog| ensures ProgFits(v, p) && Scanned(v, p) && Disowned(v, p) {
      EventFits(w, e, v, p);
      if p == Actor(e) { ScannedByActor(w, e, v); } else { ScannedByBystander(w, e, v, p); }
      DisownedKept(w, e, v, p);
    }
    forall p, q | 0 <= p < |v.prog| && 0 <= q < |v.prog| && p != q && ForkTarget(v.prog[p]).Some?
      ensures ForkTarget(v.prog[p]) != ForkTarget(v.prog[q])
    {
      MakersKept(w, e, v, p, q);
    }
    forall i, j | 0 <= j < |v.prog| && ZombieChild(v, j, i) && AsleepInWait(v, j) ensures BeingTold(v, j) {
      HandshakeAt(w, e, v, i, j);
    }
    FamilyKept(w, e, v);
  }

  // ---- whole runs ----

  // As userinit leaves the table: one process, init, RUNNABLE and never yet scheduled.
  function Boot(n: nat, init: nat): World
    requires init < n
  {
    var idle := Proc(UNUSED, 0, false, None, Gone);
    World(Table(seq(n, _ => idle)[init := idle.(status := RUNNABLE, pc := Embryo)], map[], {}),
          seq(n, _ => None), seq(n, _ => User), init)
  }

  function Exec(n: nat, init: nat, es: seq<Event>): (o: Option<World>)
    requires init < n
    ensures o.Some? ==> Sized(o.value) && |o.value.prog| == n
  {
    if es == [] then Some(Boot(n, init)) else
    match Exec(n, init, es[..|es| - 1])
    case None => None
    case Some(w) => Stepped(w, es[|es| - 1])
  }

  function Stepped(w: World, e: Event): (o: Option<World>)
    requires Sized(w)
    ensures o == WorldStep(w, e)
    ensures o.Some? ==> Sized(o.value) && |o.value.prog| == |w.prog|
  {
    var o := WorldStep(w, e);
    assert o.Some? ==> Sized(o.value) && |o.value.prog| == |w.prog| by { if o.Some? { StepSizes(w, e); } }
    o
  }

  lemma StepSizes(w: World, e: Event)
    requires Sized(w) && WorldStep(w, e).Some?
    ensures Sized(WorldStep(w, e).value) && |WorldStep(w, e).value.prog| == |w.prog|
  {
    hide Next, Plan;
    SameParents(w, e);
  }

  lemma BootInv(n: nat, init: nat)
    requires init < n
    ensures WorldInv(Boot(n, init))
  {
  }

  lemma {:induction false} ExecInv(n: nat, init: nat, es: seq<Event>)
    requires init < n && Exec(n, init, es).Some?
    ensures WorldInv(Exec(n, init, es).value)
  {
    hide WorldInv, WorldStep;
    if es == [] {
      BootInv(n, init);
    } else {
      ExecInv(n, init, es[..|es| - 1]);
      EventKeeps(Exec(n, init, es[..|es| - 1]).value, es[|es| - 1]);
    }
  }

  /** The exit/wait handshake: in every reachable state where wait_lock is free, no process that
      is asleep in wait, or committed to that sleep, has a ZOMBIE child, its own or inherited. */
  lemma WaitersHaveNoZombies(n: nat, init: nat, es: seq<Event>, j: nat, i: nat)
    requires init < n && Exec(n, init, es).Some? && WAIT !in Exec(n, init, es).value.t.held && j < n
    ensures var w := Exec(n, init, es).value; AsleepInWait(w, j) ==> !ZombieChild(w, j, i)
  {
    hide WorldInv, Exec, AsleepInWait, ZombieChild;
    ExecInv(n, init, es);
    var w := Exec(n, init, es).value;
    if AsleepInWait(w, j) && ZombieChild(w, j, i) { HandshakeKnown(w, i, j); }
  }

  /** No orphans: in every reachable state a zombie has a parent, and that parent is alive. */
  lemma ZombiesHaveLiveParents(n: nat, init: nat, es: seq<Event>, i: nat)
    requires init < n && Exec(n, init, es).Some? && i < n
    ensures var w := Exec(n, init, es).value;
            w.t.procs[i].status.ZOMBIE? ==> w.parent[i].Some? && Live(w, w.parent[i].value)
  {
    hide WorldInv, Exec;
    ExecInv(n, init, es);
    FamilyKnown(Exec(n, init, es).value);
  }
}
