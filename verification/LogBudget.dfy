/** How many calls of log_write an operation may make: what a whole run can rely on, counting the
    calls in the run itself, and the exact bound below which no run ever panics. */
module LogBudget {
  import opened Storage
  import opened LogMachine
  import opened LogSafety
  import opened LogFull

  /** The calls of log_write by process p since it last called begin_op. */
  function Calls(es: seq<Event>, p: nat): nat {
    if es == [] then 0 else
    var e, calls := es[|es| - 1], Calls(es[..|es| - 1], p);
    if e == Begin(p) then 0 else if e.LogWrite? && e.p == p then calls + 1 else calls
  }

  /** No operation of the run calls log_write more than c times. */
  predicate CallsAtMost(es: seq<Event>, c: nat) {
    forall i :: 0 <= i < |es| && es[i].LogWrite? ==> Calls(es[..i], es[i].p) < c
  }

  /** While a commit writes, others hold at most h buffers that it has not pinned. */
  predicate HeldAtMost(es: seq<Event>, h: nat) {
    forall i :: 0 <= i < |es| && es[i].DiskWrite? ==> es[i].held <= h
  }

  lemma Extends(es: seq<Event>, e: Event, c: nat)
    ensures (es + [e])[..|es|] == es
    ensures CallsAtMost(es + [e], c) <==> CallsAtMost(es, c) && (e.LogWrite? ==> Calls(es, e.p) < c)
    ensures forall p :: Calls(es + [e], p) == CallsAfter(es, e, p)
  {
    hide Calls;
    var fs := es + [e];
    forall i | 0 <= i < |es| ensures fs[i] == es[i] && fs[..i] == es[..i] { }
    assert fs[..|es|] == es && fs[|es|] == e;
    if CallsAtMost(es, c) && (e.LogWrite? ==> Calls(es, e.p) < c) {
      forall i | 0 <= i < |fs| && fs[i].LogWrite? ensures Calls(fs[..i], fs[i].p) < c { }
    }
    if CallsAtMost(fs, c) {
      forall i | 0 <= i < |es| && es[i].LogWrite? ensures Calls(es[..i], es[i].p) < c {
        assert Calls(fs[..i], fs[i].p) < c;
      }
    }
    forall p ensures Calls(fs, p) == CallsAfter(es, e, p) { CallsStep(es, e, p); }
  }

  function CallsAfter(es: seq<Event>, e: Event, p: nat): nat {
    if e == Begin(p) then 0 else if e.LogWrite? && e.p == p then Calls(es, p) + 1 else Calls(es, p)
  }

  lemma CallsStep(es: seq<Event>, e: Event, p: nat)
    ensures Calls(es + [e], p) == CallsAfter(es, e, p)
  {
    assert (es + [e])[..|es|] == es;
  }

  // ---- an operation logs no more blocks than it makes calls ----

  predicate Counted(s: State, es: seq<Event>) {
    forall p :: 0 <= p < |s.ops| && s.ops[p].Active? ==> |s.ops[p].blocks| <= Calls(es, p)
  }

  lemma CountedStep(L: Layout, r: Run, es: seq<Event>, e: Event)
    requires Shape(L, r) && Counted(r.s, es) && Step(L, r, e).Ok?
    ensures Counted(Step(L, r, e).r.s, es + [e])
  {
    hide Well, NextCommitWrite, NextRecoverWrite, Weigh;
    Extends(es, e, 0);
  }

  /** In every run, an operation in progress has logged at most as many distinct blocks as it has
      made calls since its begin_op. */
  lemma {:induction false} BlocksAreCalls(L: Layout, d: Image, nproc: nat, es: seq<Event>)
    requires Well(d, L) && Ran(L, d, nproc, es).Ok?
    ensures Counted(Ran(L, d, nproc, es).r.s, es)
  {
    hide Inv, Step, Recovered;
    if es != [] {
      var fs, e := es[..|es| - 1], es[|es| - 1];
      BlocksAreCalls(L, d, nproc, fs);
      var m := Ran(L, d, nproc, fs).r;
      ShapeKnown(L, Recovered(d, L), m);
      CountedStep(L, m, fs, e);
      assert fs + [e] == es;
    }
  }

  // ---- only a commit without a buffer panics ----

  /** The run stops at a write of a commit that finds every buffer taken. */
  ghost predicate CommitStarves(L: Layout, d: Image, nproc: nat, es: seq<Event>)
    requires Well(d, L)
  {
    exists i :: 0 <= i < |es| && Ran(L, d, nproc, es[..i]).Ok?
                && WritesWithoutBuffer(Ran(L, d, nproc, es[..i]).r.s, es[i])
  }

  lemma PrefixRuns(L: Layout, d: Image, nproc: nat, es: seq<Event>, i: nat)
    requires Well(d, L) && i <= |es| && Ran(L, d, nproc, es[..i]).Panic?
    ensures Ran(L, d, nproc, es).Panic?
    decreases |es|
  {
    if i < |es| {
      assert es[..|es| - 1][..i] == es[..i];
      PrefixRuns(L, d, nproc, es[..|es| - 1], i);
    } else {
      assert es[..i] == es;
    }
  }

  lemma StepPanics(L: Layout, base: Image, r: Run, es: seq<Event>, e: Event)
    requires Inv(L, base, r) && L.size > LOGSIZE && Counted(r.s, es)
    requires e.LogWrite? ==> Calls(es, e.p) < MAXOPBLOCKS
    ensures Step(L, r, e).Panic? <==> WritesWithoutBuffer(r.s, e)
  {
    PanicsExactly(L, base, r, e);
    ReservedBounds(r.s.ops);
    if e.LogWrite? && e.p < |r.s.ops| { assert Budget(r.s.ops[e.p]) <= Reserved(r.s.ops); }
  }

  lemma StarvesPanics(L: Layout, d: Image, nproc: nat, es: seq<Event>, i: nat)
    requires Well(d, L) && i < |es| && Ran(L, d, nproc, es[..i]).Ok?
    requires WritesWithoutBuffer(Ran(L, d, nproc, es[..i]).r.s, es[i])
    ensures Ran(L, d, nproc, es).Panic?
  {
    hide Inv, Recovered;
    ShapeKnown(L, Recovered(d, L), Ran(L, d, nproc, es[..i]).r);
    assert es[..i + 1][..i] == es[..i] && es[..i + 1][i] == es[i];
    PrefixRuns(L, d, nproc, es, i + 1);
  }

  lemma {:induction false} PanicsStarved(L: Layout, d: Image, nproc: nat, es: seq<Event>)
    requires Well(d, L) && L.size > LOGSIZE && CallsAtMost(es, MAXOPBLOCKS) && Ran(L, d, nproc, es).Panic?
    ensures CommitStarves(L, d, nproc, es)
  {
    hide Inv, Step, Recovered, WritesWithoutBuffer;
    if es != [] {
      var n := |es| - 1;
      var fs := es[..n];
      assert fs + [es[n]] == es;
      Extends(fs, es[n], MAXOPBLOCKS);
      if Ran(L, d, nproc, fs).Ok? {
        BlocksAreCalls(L, d, nproc, fs);
        StepPanics(L, Recovered(d, L), Ran(L, d, nproc, fs).r, fs, es[n]);
      } else {
        PanicsStarved(L, d, nproc, fs);
        var i :| 0 <= i < n && Ran(L, d, nproc, fs[..i]).Ok?
                 && WritesWithoutBuffer(Ran(L, d, nproc, fs[..i]).r.s, fs[i]);
        assert es[..i] == fs[..i];
      }
    }
  }

  /** A run whose operations each call log_write at most MAXOPBLOCKS times panics exactly when a
      write of a commit finds every buffer pinned or held: log_write never does, and nor does end_op. */
  lemma OnlyCommitsPanic(L: Layout, d: Image, nproc: nat, es: seq<Event>)
    requires Well(d, L) && L.size > LOGSIZE && CallsAtMost(es, MAXOPBLOCKS)
    ensures Ran(L, d, nproc, es).Panic? <==> CommitStarves(L, d, nproc, es)
  {
    hide Inv, Exec, Recovered, WritesWithoutBuffer;
    if Ran(L, d, nproc, es).Panic? { PanicsStarved(L, d, nproc, es); }
    if CommitStarves(L, d, nproc, es) {
      var i :| 0 <= i < |es| && Ran(L, d, nproc, es[..i]).Ok?
               && WritesWithoutBuffer(Ran(L, d, nproc, es[..i]).r.s, es[i]);
      StarvesPanics(L, d, nproc, es, i);
    }
  }

  // ---- how large a group can become ----

  /** What an operation may still log when it makes at most c calls. */
  function Left(c: nat): Op -> int {
    (o: Op) => if o.Active? then c - |o.blocks| else 0
  }

  function MostListed(c: nat): nat {
    if c == 0 then 0 else MAXOPBLOCKS + 2 * c
  }

  // Listed blocks and those the active operations may still log.
  predicate GroupFits(s: State, c: nat) {
    s.phase.Recovering? || |s.lh| + Weigh(s.ops, Left(c)) <= MostListed(c)
  }

  predicate AtMost(ops: seq<Op>, c: nat) {
    forall p :: 0 <= p < |ops| && ops[p].Active? ==> |ops[p].blocks| <= c
  }

  lemma {:induction false} LeftBounds(ops: seq<Op>, c: nat)
    requires AtMost(ops, c)
    ensures 0 <= Weigh(ops, Left(c)) <= c * Outstanding(ops)
  {
    if ops != [] { LeftBounds(ops[..|ops| - 1], c); }
  }

  // begin_op admits a third operation only on an empty list, and a second on at most MAXOPBLOCKS.
  lemma BeginFits(L: Layout, base: Image, r: Run, c: nat, p: nat)
    requires Inv(L, base, r) && AtMost(r.s.ops, c) && GroupFits(r.s, c) && c <= MAXOPBLOCKS
    requires Step(L, r, Begin(p)).Ok?
    ensures GroupFits(Step(L, r, Begin(p)).r.s, c)
  {
    hide DiskInv, HomeHist, FreshIds, Whole, Well, Weigh;
    var s := r.s;
    WeighUpdate(s.ops, Left(c), p, Active(r.next, {}));
    LeftBounds(s.ops, c);
    NoneActive(s.ops);
    var n := Outstanding(s.ops);
    if n == 0 {
    } else if n == 1 {
      assert c * n == c;
    } else {
      assert n == 2 && c * n == 2 * c;
    }
  }

  lemma LogWriteFits(L: Layout, base: Image, r: Run, c: nat, p: nat, b: nat, data: Block)
    requires Inv(L, base, r) && GroupFits(r.s, c)
    requires Step(L, r, LogWrite(p, b, data)).Ok?
    ensures GroupFits(Step(L, r, LogWrite(p, b, data)).r.s, c)
  {
    hide DiskInv, HomeHist, FreshIds, Whole, Settled, Well, Weigh;
    var o := r.s.ops[p].(blocks := r.s.ops[p].blocks + {b});
    WeighUpdate(r.s.ops, Left(c), p, o);
    NoneActive(r.s.ops);
    if b in r.s.ops[p].blocks {
      assert o.blocks == r.s.ops[p].blocks && b in r.s.lh;
    } else {
      assert |o.blocks| == |r.s.ops[p].blocks| + 1;
    }
  }

  lemma EndFits(L: Layout, base: Image, r: Run, c: nat, p: nat)
    requires Inv(L, base, r) && AtMost(r.s.ops, c) && GroupFits(r.s, c)
    requires Step(L, r, End(p)).Ok?
    ensures GroupFits(Step(L, r, End(p)).r.s, c)
  {
    hide DiskInv, HomeHist, FreshIds, Whole, Settled, Well, Weigh;
    WeighUpdate(r.s.ops, Left(c), p, Idle);
    NoneActive(r.s.ops);
  }

  lemma WriteFits(L: Layout, base: Image, r: Run, c: nat, held: nat)
    requires Inv(L, base, r) && AtMost(r.s.ops, c) && GroupFits(r.s, c)
    requires Step(L, r, DiskWrite(held)).Ok?
    ensures GroupFits(Step(L, r, DiskWrite(held)).r.s, c)
  {
    hide DiskInv, HomeHist, FreshIds, Whole, Settled, Well, Weigh, NextCommitWrite, NextRecoverWrite;
    LeftBounds(r.s.ops, c);
  }

  lemma StepFits(L: Layout, base: Image, r: Run, c: nat, e: Event)
    requires Inv(L, base, r) && AtMost(r.s.ops, c) && GroupFits(r.s, c) && c <= MAXOPBLOCKS
    requires Step(L, r, e).Ok?
    ensures GroupFits(Step(L, r, e).r.s, c)
  {
    hide Inv, GroupFits, Step, Shape;
    match e
    case Begin(p) => BeginFits(L, base, r, c, p);
    case LogWrite(p, b, data) => LogWriteFits(L, base, r, c, p, b, data);
    case End(p) => EndFits(L, base, r, c, p);
    case DiskWrite(held) => WriteFits(L, base, r, c, held);
    case Crash => CrashFits(L, base, r, c);
  }

  lemma CrashFits(L: Layout, base: Image, r: Run, c: nat)
    requires Inv(L, base, r)
    ensures Step(L, r, Crash).Ok? && GroupFits(Step(L, r, Crash).r.s, c)
  {
    hide DiskInv, HomeHist, FreshIds, Whole, Settled, Well, Weigh, Reservation;
  }

  lemma {:induction false} CallsBounded(es: seq<Event>, c: nat, p: nat)
    requires CallsAtMost(es, c)
    ensures Calls(es, p) <= c
  {
    if es != [] {
      var fs, e := es[..|es| - 1], es[|es| - 1];
      assert fs + [e] == es;
      Extends(fs, e, c);
      CallsBounded(fs, c, p);
    }
  }

  lemma WithinCalls(L: Layout, d: Image, nproc: nat, es: seq<Event>, c: nat)
    requires Well(d, L) && Ran(L, d, nproc, es).Ok? && CallsAtMost(es, c)
    ensures AtMost(Ran(L, d, nproc, es).r.s.ops, c)
  {
    hide Exec, Inv, CallsAtMost, Calls, Recovered;
    BlocksAreCalls(L, d, nproc, es);
    var ops := Ran(L, d, nproc, es).r.s.ops;
    forall p | 0 <= p < |ops| && ops[p].Active? ensures |ops[p].blocks| <= c { CallsBounded(es, c, p); }
  }

  /** In every run whose operations make at most c calls each, listed blocks and what the active
      operations may still log come to at most MAXOPBLOCKS + 2c. */
  lemma {:induction false} GroupAtMost(L: Layout, d: Image, nproc: nat, es: seq<Event>, c: nat)
    requires Well(d, L) && Ran(L, d, nproc, es).Ok? && CallsAtMost(es, c) && c <= MAXOPBLOCKS
    ensures GroupFits(Ran(L, d, nproc, es).r.s, c)
  {
    hide Inv, Step, Recovered, Weigh;
    if es != [] {
      var fs, e := es[..|es| - 1], es[|es| - 1];
      assert fs + [e] == es;
      Extends(fs, e, c);
      GroupAtMost(L, d, nproc, fs, c);
      WithinCalls(L, d, nproc, fs, c);
      StepFits(L, Recovered(d, L), Ran(L, d, nproc, fs).r, c, e);
    }
  }

  // ---- the bound below which no run panics ----

  /** No run panics whose operations make at most c calls of log_write each, and in which others
      hold at most h buffers while a commit writes. */
  ghost predicate NeverPanics(c: nat, h: nat) {
    forall L: Layout, d: Image, nproc: nat, es: seq<Event> ::
      Well(d, L) && L.size > LOGSIZE && CallsAtMost(es, c) && HeldAtMost(es, h) ==> !Ran(L, d, nproc, es).Panic?
  }

  predicate FitsPool(c: nat, h: nat) {
    c == 0 || MAXOPBLOCKS + 2 * c + h < NBUF
  }

  lemma CommitFits(L: Layout, base: Image, r: Run, c: nat, e: Event)
    requires Inv(L, base, r) && AtMost(r.s.ops, c) && GroupFits(r.s, c)
    requires e.DiskWrite? ==> FitsPool(c, e.held)
    ensures !WritesWithoutBuffer(r.s, e)
  {
    hide HomeHist, FreshIds, Whole, Settled, Well, Weigh;
    LeftBounds(r.s.ops, c);
  }

  lemma FewNeverPanic(L: Layout, d: Image, nproc: nat, es: seq<Event>, c: nat, h: nat)
    requires Well(d, L) && L.size > LOGSIZE && CallsAtMost(es, c) && HeldAtMost(es, h) && FitsPool(c, h)
    ensures !Ran(L, d, nproc, es).Panic?
  {
    hide Inv, Exec, Recovered, WritesWithoutBuffer, GroupFits, AtMost;
    OnlyCommitsPanic(L, d, nproc, es);
    if CommitStarves(L, d, nproc, es) {
      var i :| 0 <= i < |es| && Ran(L, d, nproc, es[..i]).Ok?
               && WritesWithoutBuffer(Ran(L, d, nproc, es[..i]).r.s, es[i]);
      CallsPrefix(es, i, c);
      WithinCalls(L, d, nproc, es[..i], c);
      GroupAtMost(L, d, nproc, es[..i], c);
      CommitFits(L, Recovered(d, L), Ran(L, d, nproc, es[..i]).r, c, es[i]);
    }
  }

  lemma CallsPrefix(es: seq<Event>, i: nat, c: nat)
    requires i <= |es| && CallsAtMost(es, c)
    ensures CallsAtMost(es[..i], c)
  {
    assert forall j :: 0 <= j < i ==> es[..i][j] == es[j] && es[..i][..j] == es[..j];
  }

  // ---- a run that reaches the bound ----

  // Processes 0 and 1 are inside operations that have logged at most k0 and k1 blocks, -1 for a
  // process outside; n blocks are listed.
  predicate Midway(r: Run, n: nat, k0: int, k1: int) {
    && r.s.phase.Running? && r.s.lh == Listed(n) && |r.s.disk| == 100
    && |r.s.ops| == 3 && r.s.ops[2].Idle?
    && Inside(r.s.ops[0], k0) && Inside(r.s.ops[1], k1)
  }

  predicate Inside(o: Op, k: int) {
    if k < 0 then o.Idle? else o.Active? && |o.blocks| <= k
  }

  predicate Comes(es: seq<Event>, n: nat, k0: int, k1: int, c: nat) {
    && After(es).Ok? && Midway(After(es).r, n, k0, k1)
    && CallsAtMost(es, c) && HeldAtMost(es, 0)
    && (k0 >= 0 ==> Calls(es, 0) <= k0) && (k1 >= 0 ==> Calls(es, 1) <= k1)
  }

  lemma OutstandingOf(ops: seq<Op>)
    requires |ops| == 3
    ensures Outstanding(ops) == One(ops[0]) + One(ops[1]) + One(ops[2])
  {
    assert ops[..2][..1] == ops[..1];
    assert Weigh(ops[..1], One) == One(ops[0]);
    assert Weigh(ops[..2], One) == One(ops[0]) + One(ops[1]);
  }

  lemma BeginComes(es: seq<Event>, n: nat, k0: int, k1: int, c: nat, p: nat)
    requires Comes(es, n, k0, k1, c) && p <= 1 && (if p == 0 then k0 else k1) == -1
    requires n + (if k0 >= 0 || k1 >= 0 then 20 else 10) <= LOGSIZE
    ensures if p == 0 then Comes(es + [Begin(p)], n, 0, k1, c) else Comes(es + [Begin(p)], n, k0, 0, c)
  {
    hide Exec, Weigh, Inv;
    var r := After(es).r;
    OutstandingOf(r.s.ops);
    AfterOneMore(es, Begin(p));
    Extends(es, Begin(p), c);
  }

  lemma LogComes(es: seq<Event>, n: nat, k0: int, k1: int, c: nat, p: nat)
    requires Comes(es, n, k0, k1, c) && n < LOGSIZE && p <= 1
    requires 0 <= (if p == 0 then k0 else k1) < c <= MAXOPBLOCKS
    ensures var fs := es + [LogWrite(p, 40 + n, Zero())];
            if p == 0 then Comes(fs, n + 1, k0 + 1, k1, c) else Comes(fs, n + 1, k0, k1 + 1, c)
  {
    hide Exec, Weigh, Inv, Well, Step, Midway, CallsAtMost, Calls;
    AfterOneMore(es, LogWrite(p, 40 + n, Zero()));
    AfterShape(es);
    LogMidway(After(es).r, n, k0, k1, p);
    Extends(es, LogWrite(p, 40 + n, Zero()), c);
  }

  lemma AfterShape(es: seq<Event>)
    requires After(es).Ok?
    ensures Shape(LOG, After(es).r)
  {
  }

  lemma LogMidway(r: Run, n: nat, k0: int, k1: int, p: nat)
    requires Shape(LOG, r) && Midway(r, n, k0, k1) && n < LOGSIZE && p <= 1
    requires 0 <= (if p == 0 then k0 else k1) < MAXOPBLOCKS
    ensures var o := Step(LOG, r, LogWrite(p, 40 + n, Zero()));
            o.Ok? && if p == 0 then Midway(o.r, n + 1, k0 + 1, k1) else Midway(o.r, n + 1, k0, k1 + 1)
  {
    hide Well, Weigh;
    OutstandingOf(r.s.ops);
    assert |r.s.ops[p].blocks + {40 + n}| <= |r.s.ops[p].blocks| + 1;
    assert Listed(n) + [40 + n] == Listed(n + 1);
  }

  lemma EndComes(es: seq<Event>, n: nat, k0: int, k1: int, c: nat)
    requires Comes(es, n, k0, k1, c) && k0 >= 0 && k1 >= 0
    ensures Comes(es + [End(1)], n, k0, -1, c)
  {
    hide Exec, Weigh, Inv;
    var r := After(es).r;
    OutstandingOf(r.s.ops[1 := Idle]);
    AfterOneMore(es, End(1));
    Extends(es, End(1), c);
  }

  lemma StartComes(c: nat)
    ensures Comes([DiskWrite(0)], 0, -1, -1, c)
  {
    hide Exec, Weigh, Inv;
    Booted();
    Extends([], DiskWrite(0), c);
    assert THREE[..1] == [DiskWrite(0)] == [] + [DiskWrite(0)];
  }

  // Process 0 stays inside an operation while process 1 logs MAXOPBLOCKS blocks, one an operation.
  lemma Singles(c: nat) returns (es: seq<Event>)
    requires 0 < c <= MAXOPBLOCKS
    ensures Comes(es, MAXOPBLOCKS, 0, -1, c)
  {
    hide Comes;
    StartComes(c);
    es := [DiskWrite(0)];
    BeginComes(es, 0, -1, -1, c, 0);
    es := es + [Begin(0)];
    var n := 0;
    while n < MAXOPBLOCKS
      invariant n <= MAXOPBLOCKS && Comes(es, n, 0, -1, c)
    {
      BeginComes(es, n, 0, -1, c, 1);
      es := es + [Begin(1)];
      LogComes(es, n, 0, 0, c, 1);
      es := es + [LogWrite(1, 40 + n, Zero())];
      n := n + 1;
      EndComes(es, n, 0, 1, c);
      es := es + [End(1)];
    }
  }

  // Process 1 begins once more, and both then log c blocks each.
  lemma Bursts(c: nat) returns (es: seq<Event>)
    requires 0 < c <= MAXOPBLOCKS
    ensures Comes(es, MAXOPBLOCKS + 2 * c, c, -1, c)
  {
    hide Comes;
    es := Singles(c);
    BeginComes(es, MAXOPBLOCKS, 0, -1, c, 1);
    es := es + [Begin(1)];
    var k := 0;
    while k < c
      invariant k <= c && Comes(es, MAXOPBLOCKS + 2 * k, k, k, c)
    {
      LogComes(es, MAXOPBLOCKS + 2 * k, k, k, c, 1);
      es := es + [LogWrite(1, 40 + MAXOPBLOCKS + 2 * k, Zero())];
      LogComes(es, MAXOPBLOCKS + 2 * k + 1, k, k + 1, c, 0);
      es := es + [LogWrite(0, 40 + MAXOPBLOCKS + 2 * k + 1, Zero())];
      k := k + 1;
    }
    EndComes(es, MAXOPBLOCKS + 2 * c, c, c, c);
    es := es + [End(1)];
  }

  // The last operation ends, and the commit it starts finds no buffer for its first write.
  lemma Starves(es: seq<Event>, c: nat, k: nat, h: nat)
    requires Comes(es, MAXOPBLOCKS + 2 * k, k, -1, c) && NBUF <= MAXOPBLOCKS + 2 * k + h
    ensures CallsAtMost(es + [End(0)] + [DiskWrite(h)], c) && HeldAtMost(es + [End(0)] + [DiskWrite(h)], h)
    ensures After(es + [End(0)] + [DiskWrite(h)]).Panic?
  {
    hide Exec, Weigh, Inv, Well;
    OutstandingOf(After(es).r.s.ops[0 := Idle]);
    AfterOneMore(es, End(0));
    Extends(es, End(0), c);
    AfterOneMore(es + [End(0)], DiskWrite(h));
    Extends(es + [End(0)], DiskWrite(h), c);
  }

  lemma MoreCalls(es: seq<Event>, b: nat, c: nat)
    requires CallsAtMost(es, b) && b <= c
    ensures CallsAtMost(es, c)
  {
  }

  lemma BoundReached(c: nat, h: nat)
    requires !FitsPool(c, h)
    ensures !NeverPanics(c, h)
  {
    hide Comes, Exec, Inv, Calls;
    var b := if c <= MAXOPBLOCKS then c else MAXOPBLOCKS;
    var es := Bursts(b);
    Starves(es, b, b, h);
    var fs := es + [End(0)] + [DiskWrite(h)];
    MoreCalls(fs, b, c);
    assert Ran(LOG, Disk0(), 3, fs).Panic?;
  }

  /** The exact bound: no run panics if and only if operations make no call at all, or twice the
      calls one operation may make, the buffers others may hold during a commit and MAXOPBLOCKS
      together stay below NBUF. */
  lemma NeverPanicsExactly(c: nat, h: nat)
    ensures NeverPanics(c, h) <==> FitsPool(c, h)
  {
    hide Ran, CallsAtMost, HeldAtMost;
    if FitsPool(c, h) {
      forall L: Layout, d: Image, nproc: nat, es: seq<Event>
        | Well(d, L) && L.size > LOGSIZE && CallsAtMost(es, c) && HeldAtMost(es, h)
        ensures !Ran(L, d, nproc, es).Panic?
      {
        FewNeverPanic(L, d, nproc, es, c, h);
      }
    } else {
      BoundReached(c, h);
    }
  }
}
