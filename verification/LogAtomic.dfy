/** The log as a disk that changes atomically: what readers see and what a crash would leave are
    computed from the events alone, and every run of the log machine agrees with them. */
module LogAtomic {
  import opened Storage
  import opened LogMachine
  import opened LogSafety

  /** The commit's header write is the last event. */
  predicate Commits(L: Layout, d: Image, nproc: nat, es: seq<Event>)
    requires Well(d, L) && es != []
  {
    var o := Ran(L, d, nproc, es[..|es| - 1]);
    es[|es| - 1].DiskWrite? && o.Ok? && o.r.s.phase == Committing(|o.r.s.lh|)
  }

  /** What readers see: every log_write at once, and after a crash what had been saved. */
  function Seen(L: Layout, d: Image, nproc: nat, es: seq<Event>): (r: Image)
    requires Well(d, L)
    ensures |r| == |d|
  {
    if es == [] then Recovered(d, L) else
    var fs := es[..|es| - 1];
    match es[|es| - 1]
    case LogWrite(_, b, x) => if b < |d| then Seen(L, d, nproc, fs)[b := x] else Seen(L, d, nproc, fs)
    case Crash => Saved(L, d, nproc, fs)
    case _ => Seen(L, d, nproc, fs)
  }

  /** What a crash would leave: all that readers see, at each commit's header write. */
  function Saved(L: Layout, d: Image, nproc: nat, es: seq<Event>): (r: Image)
    requires Well(d, L)
    ensures |r| == |d|
  {
    if es == [] then Recovered(d, L) else
    if Commits(L, d, nproc, es) then Seen(L, d, nproc, es[..|es| - 1]) else Saved(L, d, nproc, es[..|es| - 1])
  }

  /** What the machine's history comes to. */
  predicate Agrees(L: Layout, d: Image, nproc: nat, es: seq<Event>, r: Run)
    requires Well(d, L)
  {
    && r.durable <= |r.hist|
    && Seen(L, d, nproc, es) == Effect(Recovered(d, L), r.hist)
    && Saved(L, d, nproc, es) == Effect(Recovered(d, L), r.hist[..r.durable])
  }

  // How each event changes the history.
  lemma HistoryStep(L: Layout, base: Image, r: Run, e: Event)
    requires Inv(L, base, r) && Step(L, r, e).Ok?
    ensures var t := Step(L, r, e).r;
            && r.durable <= |r.hist| && t.durable <= |t.hist|
            && match e
               case LogWrite(p, b, x) =>
                 t.durable == r.durable && b < |base| && exists id :: t.hist == r.hist + [Update(id, b, x)]
               case Crash => t.hist == t.hist[..t.durable] == r.hist[..r.durable]
               case DiskWrite(_) =>
                 && t.hist == r.hist
                 && if r.s.phase == Committing(|r.s.lh|) then t.durable == |r.hist| else t.durable == r.durable
               case _ => t.hist == r.hist && t.durable == r.durable
  {
    hide HomeHist, FreshIds, Whole, Reservation, NextCommitWrite, NextRecoverWrite, Well, CommitWrites;
  }

  lemma EffectMore(base: Image, h: seq<Update>, u: Update)
    ensures Effect(base, h + [u]) == if u.block < |base| then Effect(base, h)[u.block := u.data] else Effect(base, h)
  {
    assert (h + [u])[..|h|] == h;
  }

  lemma AgreesStep(L: Layout, d: Image, nproc: nat, es: seq<Event>)
    requires Well(d, L) && es != [] && Ran(L, d, nproc, es).Ok?
    requires Agrees(L, d, nproc, es[..|es| - 1], Ran(L, d, nproc, es[..|es| - 1]).r)
    ensures Agrees(L, d, nproc, es, Ran(L, d, nproc, es).r)
  {
    hide Inv, Step, Recovered, Effect, Well;
    var e, r, t := es[|es| - 1], Ran(L, d, nproc, es[..|es| - 1]).r, Ran(L, d, nproc, es).r;
    HistoryStep(L, Recovered(d, L), r, e);
    if e.LogWrite? {
      var id :| t.hist == r.hist + [Update(id, e.block, e.data)];
      EffectMore(Recovered(d, L), r.hist, Update(id, e.block, e.data));
      assert t.hist[..r.durable] == r.hist[..r.durable];
    }
    assert r.hist[..|r.hist|] == r.hist;
  }

  lemma {:induction false} RunAgrees(L: Layout, d: Image, nproc: nat, es: seq<Event>)
    requires Well(d, L) && Ran(L, d, nproc, es).Ok?
    ensures Agrees(L, d, nproc, es, Ran(L, d, nproc, es).r)
  {
    hide Inv, Step, Recovered, Agrees;
    if es == [] {
      AgreesFirst(L, d, nproc);
    } else {
      RunAgrees(L, d, nproc, es[..|es| - 1]);
      AgreesStep(L, d, nproc, es);
    }
  }

  lemma AgreesFirst(L: Layout, d: Image, nproc: nat)
    requires Well(d, L)
    ensures Agrees(L, d, nproc, [], Boot(d, L, nproc))
  {
  }

  /** The log refines the atomic disk: in every run readers see exactly what the events say, and a
      crash at any moment recovers exactly what they say was saved. */
  lemma Refines(L: Layout, d: Image, nproc: nat, es: seq<Event>)
    requires Well(d, L) && Ran(L, d, nproc, es).Ok?
    ensures var s := Ran(L, d, nproc, es).r.s;
            && Well(s.disk, L)
            && SameHome(Recovered(s.disk, L), Saved(L, d, nproc, es), L)
            && (!s.phase.Recovering? ==> SameHome(s.cur, Seen(L, d, nproc, es), L))
  {
    hide Inv, Exec, Recovered, Seen, Saved, Whole;
    RunAgrees(L, d, nproc, es);
    CrashSafety(L, d, nproc, es);
    ReadersSeeAll(L, d, nproc, es);
  }

  // ---- the last write of a block ----

  /** Event n writes x to block b, and no later event writes b. */
  predicate LastWrite(es: seq<Event>, n: nat, b: nat, x: Block) {
    && n < |es| && es[n].LogWrite? && es[n].block == b && es[n].data == x
    && forall i :: n < i < |es| && es[i].LogWrite? ==> es[i].block != b
  }

  predicate NoCrashAfter(es: seq<Event>, n: nat) {
    forall i :: n < i < |es| ==> !es[i].Crash?
  }

  lemma {:induction false} SeenLast(L: Layout, d: Image, nproc: nat, es: seq<Event>, n: nat, b: nat, x: Block)
    requires Well(d, L) && LastWrite(es, n, b, x) && NoCrashAfter(es, n) && b < |d|
    ensures Seen(L, d, nproc, es)[b] == x
  {
    var m := |es| - 1;
    if n < m {
      assert LastWrite(es[..m], n, b, x) && NoCrashAfter(es[..m], n);
      SeenLast(L, d, nproc, es[..m], n, b, x);
    }
  }

  // A log_write that goes through comes after recovery, and only a crash brings recovery back.
  lemma {:induction false} RunningAfter(L: Layout, d: Image, nproc: nat, es: seq<Event>, n: nat)
    requires Well(d, L) && Ran(L, d, nproc, es).Ok? && n < |es| && es[n].LogWrite? && NoCrashAfter(es, n)
    ensures !Ran(L, d, nproc, es).r.s.phase.Recovering? && es[n].block < |d|
  {
    hide Inv, Step, Recovered;
    var m := |es| - 1;
    var r := Ran(L, d, nproc, es[..m]).r;
    DiskSize(L, d, nproc, es[..m]);
    KeepsRunning(L, Recovered(d, L), r, es[m]);
    if n < m {
      assert NoCrashAfter(es[..m], n);
      RunningAfter(L, d, nproc, es[..m], n);
    }
  }

  lemma KeepsRunning(L: Layout, base: Image, r: Run, e: Event)
    requires Inv(L, base, r) && Step(L, r, e).Ok? && !e.Crash?
    ensures Step(L, r, e).r.s.phase.Recovering? ==> r.s.phase.Recovering? && !e.LogWrite?
    ensures e.LogWrite? ==> e.block < |r.s.disk|
  {
    hide DiskInv, HomeHist, FreshIds, Whole, Settled, NextCommitWrite, NextRecoverWrite, Weigh, Well;
    NoneActive(r.s.ops);
  }

  lemma DiskSize(L: Layout, d: Image, nproc: nat, es: seq<Event>)
    requires Well(d, L) && Ran(L, d, nproc, es).Ok?
    ensures |Ran(L, d, nproc, es).r.s.disk| == |Ran(L, d, nproc, es).r.s.cur| == |d|
  {
  }

  /** Readers see what was written: in every run, whatever else happens between, a block holds what
      the last log_write put there until a crash. */
  lemma LastWriteIsSeen(L: Layout, d: Image, nproc: nat, es: seq<Event>, n: nat, b: nat, x: Block)
    requires Well(d, L) && Ran(L, d, nproc, es).Ok? && LastWrite(es, n, b, x) && NoCrashAfter(es, n)
    requires L.Home(d, b)
    ensures var s := Ran(L, d, nproc, es).r.s; b < |s.cur| && s.cur[b] == x
  {
    hide Exec, Inv, Seen, Recovered;
    RunningAfter(L, d, nproc, es, n);
    SeenLast(L, d, nproc, es, n, b, x);
    Refines(L, d, nproc, es);
    DiskSize(L, d, nproc, es);
  }

  // What is saved stays as long as the block is not written, and readers see it after every crash.
  lemma {:induction false} SavedStays(L: Layout, d: Image, nproc: nat, es: seq<Event>, m: nat, b: nat, x: Block)
    requires Well(d, L) && m <= |es| && b < |d|
    requires Seen(L, d, nproc, es[..m])[b] == x && Saved(L, d, nproc, es[..m])[b] == x
    requires forall i :: m <= i < |es| && es[i].LogWrite? ==> es[i].block != b
    ensures Seen(L, d, nproc, es)[b] == x && Saved(L, d, nproc, es)[b] == x
    decreases |es|
  {
    if m == |es| {
      assert es[..m] == es;
    } else {
      assert es[..|es| - 1][..m] == es[..m];
      SavedStays(L, d, nproc, es[..|es| - 1], m, b, x);
    }
  }

  /** Committed writes stay: once a commit has written its header after the last log_write of a block,
      every crash from then on, any number of them, recovers what was written. */
  lemma LastWriteIsSaved(L: Layout, d: Image, nproc: nat, es: seq<Event>, n: nat, m: nat, b: nat, x: Block)
    requires Well(d, L) && Ran(L, d, nproc, es).Ok? && LastWrite(es, n, b, x) && L.Home(d, b)
    requires n < m < |es| && NoCrashAfter(es[..m], n) && Commits(L, d, nproc, es[..m + 1])
    ensures var s := Ran(L, d, nproc, es).r.s; Well(s.disk, L) && Recovered(s.disk, L)[b] == x
  {
    hide Exec, Inv, Recovered;
    assert es[..m + 1][..m] == es[..m] && LastWrite(es[..m], n, b, x);
    SeenLast(L, d, nproc, es[..m], n, b, x);
    SavedStays(L, d, nproc, es, m + 1, b, x);
    Refines(L, d, nproc, es);
    DiskSize(L, d, nproc, es);
  }

  predicate Unwritten(es: seq<Event>, b: nat) {
    forall i :: 0 <= i < |es| && es[i].LogWrite? ==> es[i].block != b
  }

  /** Nothing else is written: a block that no log_write names is as it was booted, for readers and
      after a crash at any moment. */
  lemma UnwrittenStays(L: Layout, d: Image, nproc: nat, es: seq<Event>, b: nat)
    requires Well(d, L) && Ran(L, d, nproc, es).Ok? && Unwritten(es, b) && L.Home(d, b)
    ensures var s := Ran(L, d, nproc, es).r.s;
            && Well(s.disk, L) && |s.cur| == |d| && Recovered(s.disk, L)[b] == Recovered(d, L)[b]
            && (!s.phase.Recovering? ==> s.cur[b] == Recovered(d, L)[b])
  {
    hide Exec, Inv, Recovered;
    assert es[..0] == [];
    SavedStays(L, d, nproc, es, 0, b, Recovered(d, L)[b]);
    Refines(L, d, nproc, es);
    DiskSize(L, d, nproc, es);
  }

  // ---- whole operations ----

  /** Process p has begun an operation and not ended it. */
  predicate Within(es: seq<Event>, p: nat) {
    es != [] &&
    match es[|es| - 1]
    case Begin(q) => q == p || Within(es[..|es| - 1], p)
    case End(q) => q != p && Within(es[..|es| - 1], p)
    case Crash => false
    case _ => Within(es[..|es| - 1], p)
  }

  lemma StepSize(L: Layout, r: Run, e: Event)
    requires Shape(L, r) && Step(L, r, e).Ok?
    ensures |Step(L, r, e).r.s.ops| == |r.s.ops|
  {
    hide Well, NextCommitWrite, NextRecoverWrite, Weigh;
  }

  lemma InsideStep(L: Layout, r: Run, e: Event, p: nat)
    requires Shape(L, r) && Step(L, r, e).Ok? && p < |r.s.ops|
    ensures var t := Step(L, r, e).r;
            && |t.s.ops| == |r.s.ops|
            && (t.s.ops[p].Active? <==> match e
                                        case Begin(q) => q == p || r.s.ops[p].Active?
                                        case End(q) => q != p && r.s.ops[p].Active?
                                        case Crash => false
                                        case _ => r.s.ops[p].Active?)
  {
    hide Well, NextCommitWrite, NextRecoverWrite, Weigh;
  }

  /** The machine counts as inside an operation exactly the processes that began one. */
  lemma {:induction false} InsideExactly(L: Layout, d: Image, nproc: nat, es: seq<Event>)
    requires Well(d, L) && Ran(L, d, nproc, es).Ok?
    ensures |Ran(L, d, nproc, es).r.s.ops| == nproc
    ensures forall p :: 0 <= p < nproc ==> (Ran(L, d, nproc, es).r.s.ops[p].Active? <==> Within(es, p))
  {
    hide Inv, Recovered, Step;
    if es != [] {
      var r := Ran(L, d, nproc, es[..|es| - 1]).r;
      InsideExactly(L, d, nproc, es[..|es| - 1]);
      ShapeKnown(L, Recovered(d, L), r);
      StepSize(L, r, es[|es| - 1]);
      forall p | 0 <= p < nproc ensures Ran(L, d, nproc, es).r.s.ops[p].Active? <==> Within(es, p) {
        InsideStep(L, r, es[|es| - 1], p);
      }
    }
  }

  /** All or nothing: when a commit saves what readers see, every operation begun has ended. */
  lemma CommitsBetween(L: Layout, d: Image, nproc: nat, es: seq<Event>, p: nat)
    requires Well(d, L) && es != [] && Commits(L, d, nproc, es) && p < nproc
    ensures !Within(es[..|es| - 1], p)
  {
    hide Exec, Recovered, Within;
    var r := Ran(L, d, nproc, es[..|es| - 1]).r;
    InsideExactly(L, d, nproc, es[..|es| - 1]);
    NoneActive(r.s.ops);
  }

  /** Once nobody is inside an operation and no commit is running, everything readers see is saved. */
  lemma QuietIsSaved(L: Layout, d: Image, nproc: nat, es: seq<Event>)
    requires Well(d, L) && Ran(L, d, nproc, es).Ok? && Ran(L, d, nproc, es).r.s.phase.Running?
    requires forall p :: 0 <= p < nproc ==> !Within(es, p)
    ensures Seen(L, d, nproc, es) == Saved(L, d, nproc, es)
  {
    hide Exec, Inv, Recovered, Within, Seen, Saved, Whole;
    InsideExactly(L, d, nproc, es);
    ReadersSeeAll(L, d, nproc, es);
    RunAgrees(L, d, nproc, es);
    var r := Ran(L, d, nproc, es).r;
    assert r.hist[..|r.hist|] == r.hist;
  }

  // ---- pinned buffers ----

  /** The writes to home blocks that a commit has yet to issue, from its kth write on. */
  function ToInstall(L: Layout, s: State, k: nat): nat
    requires L.Fits(s.disk) && |s.cur| == |s.disk| && |s.lh| <= LOGSIZE && |s.lh| < L.size
    requires forall i :: 0 <= i < |s.lh| ==> L.Home(s.disk, s.lh[i])
    decreases 2 * |s.lh| + 2 - k
  {
    if k > 2 * |s.lh| + 1 then 0
    else (if L.Home(s.disk, NextCommitWrite(L, s, k).blockno) then 1 else 0) + ToInstall(L, s, k + 1)
  }

  /** A buffer is pinned for every listed block that has not been installed. */
  lemma {:induction false} PinsAreToInstall(L: Layout, s: State, k: nat)
    requires L.Fits(s.disk) && |s.cur| == |s.disk| && |s.lh| <= LOGSIZE && |s.lh| < L.size
    requires forall i :: 0 <= i < |s.lh| ==> L.Home(s.disk, s.lh[i])
    requires s.phase == Committing(k) && k <= 2 * |s.lh| + 1
    ensures Pins(s) == ToInstall(L, s, k)
    decreases 2 * |s.lh| + 2 - k
  {
    var n := |s.lh|;
    if k <= 2 * n {
      PinsAreToInstall(L, s.(phase := Committing(k + 1)), k + 1);
      SamePlan(L, s, s.(phase := Committing(k + 1)), k + 1);
      if n < k { assert L.Home(s.disk, s.lh[k - n - 1]); }
    } else {
      assert ToInstall(L, s, k + 1) == 0;
    }
  }

  lemma {:induction false} SamePlan(L: Layout, s: State, t: State, k: nat)
    requires L.Fits(s.disk) && |s.cur| == |s.disk| && |s.lh| <= LOGSIZE && |s.lh| < L.size
    requires forall i :: 0 <= i < |s.lh| ==> L.Home(s.disk, s.lh[i])
    requires t.disk == s.disk && t.cur == s.cur && t.lh == s.lh
    ensures ToInstall(L, t, k) == ToInstall(L, s, k)
    decreases 2 * |s.lh| + 2 - k
  {
    if k <= 2 * |s.lh| + 1 { SamePlan(L, s, t, k + 1); }
  }
}
