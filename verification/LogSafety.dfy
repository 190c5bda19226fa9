/** What every reachable state of the log machine keeps: a crash at any moment recovers to
    the effect of whole operations, and no operation within its budget panics. */
module LogSafety {
  import opened Storage
  import opened CrashRecovery
  import opened LogMachine

  // ---- sums over the process table ----

  lemma {:induction false} WeighUpdate(ops: seq<Op>, w: Op -> int, p: nat, o: Op)
    requires p < |ops|
    ensures Weigh(ops[p := o], w) == Weigh(ops, w) - w(ops[p]) + w(o)
  {
    var n := |ops| - 1;
    if p < n {
      WeighUpdate(ops[..n], w, p, o);
      assert ops[p := o][..n] == ops[..n][p := o];
    } else {
      assert ops[p := o][..n] == ops[..n];
    }
  }

  /** No operation is active exactly when the count says so. */
  lemma {:induction false} NoneActive(ops: seq<Op>)
    ensures Outstanding(ops) >= 0
    ensures Outstanding(ops) == 0 <==> forall i :: 0 <= i < |ops| ==> ops[i].Idle?
  {
    if ops != [] {
      var n := |ops| - 1;
      NoneActive(ops[..n]);
      assert ops[..n] + [ops[n]] == ops;
      if forall i :: 0 <= i < |ops[..n]| ==> ops[..n][i].Idle? {
        forall i | 0 <= i < n ensures ops[i].Idle? { assert ops[..n][i] == ops[i]; }
      } else {
        var i :| 0 <= i < n && !ops[..n][i].Idle?;
        assert !ops[i].Idle?;
      }
    }
  }

  // ---- the invariant ----

  predicate InBudget(ops: seq<Op>) {
    forall p :: 0 <= p < |ops| && ops[p].Active? ==> |ops[p].blocks| <= MAXOPBLOCKS
  }

  lemma {:induction false} ReservedBounds(ops: seq<Op>)
    requires InBudget(ops)
    ensures 0 <= Reserved(ops) <= MAXOPBLOCKS * Outstanding(ops)
    ensures forall p :: 0 <= p < |ops| ==> Budget(ops[p]) <= Reserved(ops)
  {
    if ops != [] {
      var n := |ops| - 1;
      ReservedBounds(ops[..n]);
      forall p | 0 <= p < |ops| ensures Budget(ops[p]) <= Reserved(ops) {
        if p < n { assert Budget(ops[..n][p]) <= Reserved(ops[..n]); }
      }
    }
  }

  predicate OpsLogged(ops: seq<Op>, lh: seq<nat>) {
    forall p, b :: 0 <= p < |ops| && ops[p].Active? && b in ops[p].blocks ==> b in lh
  }

  /** Reservation: listed blocks plus unused budgets fit the log, and nobody is inside an
      operation while a commit or a recovery runs. */
  predicate Reservation(s: State) {
    && InBudget(s.ops) && OpsLogged(s.ops, s.lh)
    && |s.lh| + Reserved(s.ops) <= LOGSIZE
    && (!s.phase.Running? ==> Outstanding(s.ops) == 0)
  }

  predicate FreshIds(r: Run) {
    && (forall i :: 0 <= i < |r.hist| ==> r.hist[i].id < r.next)
    && (forall p :: 0 <= p < |r.s.ops| && r.s.ops[p].Active? ==> r.s.ops[p].id < r.next)
  }

  /** All or nothing: no operation has updates both inside and outside the durable part, and
      an operation with a durable update has ended. */
  predicate Whole(r: Run) {
    && r.durable <= |r.hist|
    && (forall i, j :: 0 <= i < r.durable <= j < |r.hist| ==> r.hist[i].id != r.hist[j].id)
    && (forall i, p :: 0 <= i < r.durable && 0 <= p < |r.s.ops| && r.s.ops[p].Active?
          ==> r.hist[i].id != r.s.ops[p].id)
  }

  predicate CleanUnlisted(d: Image, cur: Image, lh: seq<nat>, L: Layout) {
    |cur| == |d| && forall b :: 0 <= b < |d| && L.Home(d, b) && b !in lh ==> cur[b] == d[b]
  }

  /** The disk, phase by phase. */
  predicate DiskInv(L: Layout, base: Image, r: Run)
    requires Shape(L, r)
  {
    var s := r.s;
    var all := Effect(base, r.hist);
    var old_ := Effect(base, r.hist[..r.durable]);
    match s.phase
    case Running =>
      && s.disk[L.start][0] == 0
      && SameHome(s.disk, old_, L) && SameHome(s.cur, all, L)
      && CleanUnlisted(s.disk, s.cur, s.lh, L)
    case Committing(k) =>
      && Committable(r.origin, L, s.lh) && r.origin[L.start][0] == 0 && s.lh != []
      && k < |CommitWrites(r.origin, L, s.lh, s.cur)|
      && s.disk == Replay(r.origin, CommitWrites(r.origin, L, s.lh, s.cur)[..k])
      && (if k <= |s.lh| then SameHome(r.origin, old_, L) else r.durable == |r.hist|)
      && SameHome(Updated(r.origin, s.lh, s.cur), all, L)
      && SameHome(s.cur, all, L)
    case Recovering(k) =>
      && r.durable == |r.hist|
      && s.lh == HeadList(r.origin, L) && s.cur == s.disk
      && k < |RecoverWrites(r.origin, L)|
      && s.disk == Replay(r.origin, RecoverWrites(r.origin, L)[..k])
      && SameHome(Recovered(r.origin, L), all, L)
  }

  predicate HomeHist(L: Layout, r: Run) {
    forall i :: 0 <= i < |r.hist| ==> L.Home(r.s.disk, r.hist[i].block)
  }

  /** Updates not yet durable are listed in the header; with nobody inside an operation
      there are none. */
  predicate Settled(r: Run) {
    && r.durable <= |r.hist|
    && (!r.s.phase.Recovering? && (r.s.phase.Committing? ==> r.s.phase.k <= |r.s.lh|) ==>
         forall j :: r.durable <= j < |r.hist| ==> r.hist[j].block in r.s.lh)
    && (r.s.phase.Running? && Outstanding(r.s.ops) == 0 ==> r.s.lh == [] && r.durable == |r.hist|)
  }

  predicate Inv(L: Layout, base: Image, r: Run) {
    && Settled(r)
    && Shape(L, r) && |base| == |r.s.disk|
    && Reservation(r.s) && FreshIds(r) && Whole(r) && HomeHist(L, r)
    && DiskInv(L, base, r)
  }

  // ---- the write each step issues is the next one of the commit or recovery ----

  lemma RecoverStepRefines(d: Image, L: Layout, k: nat, s: State)
    requires Well(d, L) && k < |RecoverWrites(d, L)|
    requires s.disk == Replay(d, RecoverWrites(d, L)[..k]) && s.lh == HeadList(d, L)
    requires |s.cur| == |s.disk| && L.Fits(s.disk) && |s.lh| <= LOGSIZE && |s.lh| < L.size
    requires forall i :: 0 <= i < |s.lh| ==> L.Home(s.disk, s.lh[i])
    ensures NextRecoverWrite(L, s, k) == RecoverWrites(d, L)[k]
  {
    var iw := InstallWrites(L, HeadList(d, L), d);
    assert RecoverWrites(d, L)[..k] == iw[..k];
    if k < |iw| {
      InstallAt(d, L, k, L.start + 1 + k);
      assert s.disk[L.start + 1 + k] == d[L.start + 1 + k];
      assert RecoverWrites(d, L)[k] == iw[k];
    } else {
      InstallAt(d, L, k, L.start);
      assert s.disk[L.start] == d[L.start];
    }
  }

  lemma CommitStepRefines(d: Image, L: Layout, k: nat, s: State)
    requires Committable(d, L, s.lh) && s.lh != [] && |s.cur| == |d|
    requires d[L.start][0] == 0
    requires k < |CommitWrites(d, L, s.lh, s.cur)|
    requires s.disk == Replay(d, CommitWrites(d, L, s.lh, s.cur)[..k])
    requires forall i :: 0 <= i < |s.lh| ==> L.Home(s.disk, s.lh[i])
    ensures L.Fits(s.disk) && NextCommitWrite(L, s, k) == CommitWrites(d, L, s.lh, s.cur)[k]
  {
    var cw := CommitWrites(d, L, s.lh, s.cur);
    var lw := LogWrites(L, s.lh, s.cur);
    var n := |s.lh|;
    if k <= n {
      assert cw[..k] == lw[..k];
      SlotWritesKeep(d, L, lw[..k]);
    } else {
      CommitTailRefines(d, L, k, s);
    }
  }

  lemma CommitTailRefines(d: Image, L: Layout, k: nat, s: State)
    requires Committable(d, L, s.lh) && s.lh != [] && |s.cur| == |d|
    requires d[L.start][0] == 0
    requires |s.lh| < k < |CommitWrites(d, L, s.lh, s.cur)|
    requires s.disk == Replay(d, CommitWrites(d, L, s.lh, s.cur)[..k])
    requires forall i :: 0 <= i < |s.lh| ==> L.Home(s.disk, s.lh[i])
    ensures NextCommitWrite(L, s, k) == CommitWrites(d, L, s.lh, s.cur)[k]
  {
    hide MarkWrites, CommitWrites, RecoverWrites, HeadWrite, HeadBlock, Replay, GoodHead, HeadList, NextCommitWrite;
    var pre := MarkWrites(d, L, s.lh, s.cur);
    var c := Replay(d, pre);
    assert Well(c, L) && HeadList(c, L) == s.lh by { CommitPoint(d, L, s.lh, s.cur); }
    var rw := RecoverWrites(c, L);
    var j := k - |s.lh| - 1;
    CommitIsRecovery(d, L, s.lh, s.cur);
    SplitAt(pre, rw, k);
    ReplayConcat(d, pre, rw[..j]);
    RecoverStepRefines(c, L, j, s);
  }

  lemma SplitAt(a: seq<Write>, b: seq<Write>, k: nat)
    requires |a| <= k < |a + b|
    ensures (a + b)[..k] == a + b[..k - |a|] && (a + b)[k] == b[k - |a|]
  {
  }

  // ---- each event keeps the invariant ----

  lemma BeginKeeps(L: Layout, base: Image, r: Run, p: nat)
    requires Inv(L, base, r) && Step(L, r, Begin(p)).Ok?
    ensures Inv(L, base, Step(L, r, Begin(p)).r)
  {
    var s := r.s;
    var ops := s.ops[p := Active(r.next, {})];
    WeighUpdate(s.ops, Budget, p, Active(r.next, {}));
    WeighUpdate(s.ops, One, p, Active(r.next, {}));
    NoneActive(s.ops);
    ReservedBounds(s.ops);
  }

  lemma LogWriteKeepsBudget(L: Layout, base: Image, r: Run, p: nat, b: nat, data: Block)
    requires Inv(L, base, r) && Step(L, r, LogWrite(p, b, data)).Ok?
    ensures r.s.phase.Running? && Reservation(Step(L, r, LogWrite(p, b, data)).r.s)
  {
    hide DiskInv, HomeHist, FreshIds, Whole, Settled, Well, Weigh;
    var s := r.s;
    NoneActive(s.ops);
    var o := s.ops[p].(blocks := s.ops[p].blocks + {b});
    WeighUpdate(s.ops, Budget, p, o);
    ReservedBounds(s.ops);
    if b in s.ops[p].blocks { assert s.ops[p].blocks + {b} == s.ops[p].blocks; }
  }

  lemma LogWriteKeepsIds(L: Layout, base: Image, r: Run, p: nat, b: nat, data: Block)
    requires Inv(L, base, r) && Step(L, r, LogWrite(p, b, data)).Ok?
    ensures var t := Step(L, r, LogWrite(p, b, data)).r; Shape(L, t) && FreshIds(t) && Whole(t)
  {
    hide DiskInv, HomeHist, Settled, Well, Reservation, Weigh;
  }

  lemma LogWriteKeepsHist(L: Layout, base: Image, r: Run, p: nat, b: nat, data: Block)
    requires Inv(L, base, r) && Step(L, r, LogWrite(p, b, data)).Ok? && r.s.phase.Running?
    ensures var t := Step(L, r, LogWrite(p, b, data)).r; HomeHist(L, t) && Settled(t)
  {
    hide DiskInv, Well, Reservation, FreshIds, Whole, Weigh;
    var t := Step(L, r, LogWrite(p, b, data)).r;
    NoneActive(t.s.ops);
    assert t.s.ops[p].Active? && b in t.s.lh;
    assert forall c :: c in r.s.lh ==> c in t.s.lh;
  }

  lemma LogWriteKeepsDisk(L: Layout, base: Image, r: Run, p: nat, b: nat, data: Block)
    requires Inv(L, base, r) && Step(L, r, LogWrite(p, b, data)).Ok? && r.s.phase.Running?
    ensures var t := Step(L, r, LogWrite(p, b, data)).r; Shape(L, t) && DiskInv(L, base, t)
  {
    hide HomeHist, Settled, GoodHead, Reservation, FreshIds, Whole, Weigh;
    var t := Step(L, r, LogWrite(p, b, data)).r;
    assert t.hist[..|r.hist|] == r.hist;
    assert t.hist[..r.durable] == r.hist[..r.durable];
    assert forall c :: c in r.s.lh ==> c in t.s.lh;
  }

  lemma EndKeepsOps(L: Layout, base: Image, r: Run, p: nat)
    requires Inv(L, base, r) && Step(L, r, End(p)).Ok?
    ensures var t := Step(L, r, End(p)).r;
            r.s.phase.Running? && Shape(L, t) && Reservation(t.s) && FreshIds(t) && Whole(t) && HomeHist(L, t)
                && Settled(t)
  {
    hide DiskInv, Well, Weigh;
    var t := Step(L, r, End(p)).r;
    WeighUpdate(r.s.ops, Budget, p, Idle);
    ReservedBounds(r.s.ops);
    NoneActive(r.s.ops);
    NoneActive(t.s.ops);
    assert r.durable < |r.hist| ==> r.hist[r.durable].block in r.s.lh;
  }

  lemma EndKeepsDisk(L: Layout, base: Image, r: Run, p: nat)
    requires Inv(L, base, r) && Step(L, r, End(p)).Ok? && r.s.phase.Running?
    ensures var t := Step(L, r, End(p)).r; Shape(L, t) && DiskInv(L, base, t)
  {
    hide HomeHist, Settled, GoodHead, Reservation, FreshIds, Whole, Weigh, CommitWrites, Replay, Updated;
    if Step(L, r, End(p)).r.s.phase.Committing? {
      StartsCommit(L, r.s, base, r.hist);
    }
  }

  lemma EndKeeps(L: Layout, base: Image, r: Run, p: nat)
    requires Inv(L, base, r) && Step(L, r, End(p)).Ok?
    ensures Inv(L, base, Step(L, r, End(p)).r)
  {
    hide DiskInv, HomeHist, Settled, GoodHead, Reservation, FreshIds, Whole, Weigh;
    EndKeepsOps(L, base, r, p);
    EndKeepsDisk(L, base, r, p);
  }

  /** The group a commit is about to write is the pending updates. */
  lemma StartsCommit(L: Layout, s: State, base: Image, hist: seq<Update>)
    requires Well(s.disk, L) && |base| == |s.disk| && SameHome(s.cur, Effect(base, hist), L)
    requires CleanUnlisted(s.disk, s.cur, s.lh, L)
    requires Committable(s.disk, L, s.lh)
    ensures SameHome(Updated(s.disk, s.lh, s.cur), Effect(base, hist), L)
    ensures |CommitWrites(s.disk, L, s.lh, s.cur)| > 0 <==> s.lh != []
    ensures s.disk == Replay(s.disk, CommitWrites(s.disk, L, s.lh, s.cur)[..0])
  {
  }

  lemma CommitWriteDisk(d: Image, L: Layout, k: nat, s: State)
    requires Committable(d, L, s.lh) && s.lh != [] && |s.cur| == |d| && d[L.start][0] == 0
    requires k < |CommitWrites(d, L, s.lh, s.cur)|
    requires s.disk == Replay(d, CommitWrites(d, L, s.lh, s.cur)[..k])
    requires forall i :: 0 <= i < |s.lh| ==> L.Home(s.disk, s.lh[i])
    ensures var cw := CommitWrites(d, L, s.lh, s.cur);
            var e := Apply(s.disk, NextCommitWrite(L, s, k));
            && e == Replay(d, cw[..k + 1]) && Well(e, L)
            && (k + 1 == |cw| ==> e[L.start][0] == 0 && SameHome(e, Updated(d, s.lh, s.cur), L))
  {
    hide CommitWrites, NextCommitWrite, Recovered, GoodHead, Replay, Updated;
    CommitStepRefines(d, L, k, s);
    ReplayOneMore(d, CommitWrites(d, L, s.lh, s.cur), k);
    CommitPrefix(d, L, s.lh, s.cur, k + 1);
  }

  lemma CommitWriteKeeps(L: Layout, base: Image, r: Run, held: nat)
    requires Inv(L, base, r) && r.s.phase.Committing? && Pins(r.s) + held < NBUF
    ensures Step(L, r, DiskWrite(held)).Ok? && Inv(L, base, Step(L, r, DiskWrite(held)).r)
  {
    hide CommitWrites, NextCommitWrite, Recovered, GoodHead, Replay;
    var s := r.s;
    CommitWriteDisk(r.origin, L, s.phase.k, s);
    NoneActive(s.ops);
    ReservedBounds(s.ops);
    assert r.hist[..|r.hist|] == r.hist;
  }

  lemma RecoverWriteDisk(d: Image, L: Layout, k: nat, s: State)
    requires Well(d, L) && k < |RecoverWrites(d, L)|
    requires s.disk == Replay(d, RecoverWrites(d, L)[..k]) && s.lh == HeadList(d, L)
    requires |s.cur| == |s.disk|
    requires forall i :: 0 <= i < |s.lh| ==> L.Home(s.disk, s.lh[i])
    ensures var rw := RecoverWrites(d, L);
            var e := Apply(s.disk, NextRecoverWrite(L, s, k));
            && e == Replay(d, rw[..k + 1]) && Well(e, L)
            && (k + 1 == |rw| ==> e[L.start][0] == 0 && SameHome(e, Recovered(d, L), L))
  {
    hide RecoverWrites, NextRecoverWrite, Recovered, Replay;
    RecoverStepRefines(d, L, k, s);
    ReplayOneMore(d, RecoverWrites(d, L), k);
    RecoverPrefix(d, L, k + 1);
  }

  lemma RecoverWriteKeeps(L: Layout, base: Image, r: Run, held: nat)
    requires Inv(L, base, r) && r.s.phase.Recovering?
    ensures Step(L, r, DiskWrite(held)).Ok? && Inv(L, base, Step(L, r, DiskWrite(held)).r)
  {
    hide RecoverWrites, NextRecoverWrite, Recovered, GoodHead, Replay;
    var s := r.s;
    RecoverWriteDisk(r.origin, L, s.phase.k, s);
    NoneActive(s.ops);
    ReservedBounds(s.ops);
    assert r.hist[..|r.hist|] == r.hist;
  }

  /** What a crash in any reachable state leaves behind. */
  lemma CrashLeaves(L: Layout, base: Image, r: Run)
    requires Inv(L, base, r)
    ensures SameHome(Recovered(r.s.disk, L), Effect(base, r.hist[..r.durable]), L)
  {
    var s := r.s;
    assert r.hist[..|r.hist|] == r.hist;
    match s.phase
    case Running => EmptyRecovers(s.disk, L);
    case Committing(k) => CommitPrefix(r.origin, L, s.lh, s.cur, k);
    case Recovering(k) => RecoverPrefix(r.origin, L, k);
  }

  // The header a crash leaves on disk lists home blocks.
  lemma CrashReads(L: Layout, base: Image, r: Run)
    requires Inv(L, base, r)
    ensures Well(r.s.disk, L) && Shape(L, Step(L, r, Crash).r)
    ensures SameHome(Recovered(r.s.disk, L), Effect(base, r.hist[..r.durable]), L)
  {
    hide DiskInv, HomeHist, Settled, Reservation, FreshIds, Whole, Effect, Recovered;
    CrashLeaves(L, base, r);
    forall i | 0 <= i < |HeadList(r.s.disk, L)| ensures L.Home(r.s.disk, HeadList(r.s.disk, L)[i]) { }
  }

  lemma CrashKeeps(L: Layout, base: Image, r: Run)
    requires Inv(L, base, r)
    ensures Inv(L, base, Step(L, r, Crash).r)
  {
    hide GoodHead, HeadList, RecoverWrites, Recovered, Effect;
    CrashReads(L, base, r);
    var t := Step(L, r, Crash).r;
    NoneActive(t.s.ops);
    ReservedBounds(t.s.ops);
    assert t.hist[..t.durable] == t.hist;
    assert RecoverWrites(t.origin, L)[..0] == [];
  }

  lemma StepKeeps(L: Layout, base: Image, r: Run, e: Event)
    requires Inv(L, base, r) && Step(L, r, e).Ok?
    ensures Inv(L, base, Step(L, r, e).r)
  {
    match e
    case Begin(p) => BeginKeeps(L, base, r, p);
    case LogWrite(p, b, data) =>
      LogWriteKeepsBudget(L, base, r, p, b, data);
      LogWriteKeepsIds(L, base, r, p, b, data);
      LogWriteKeepsHist(L, base, r, p, b, data);
      LogWriteKeepsDisk(L, base, r, p, b, data);
    case End(p) => EndKeeps(L, base, r, p);
    case DiskWrite(held) =>
      if r.s.phase.Committing? { CommitWriteKeeps(L, base, r, held); } else { RecoverWriteKeeps(L, base, r, held); }
    case Crash => CrashKeeps(L, base, r);
  }

  // ---- whole runs ----

  /** Power-on with disk d: recovery is about to run. */
  function Boot(d: Image, L: Layout, nproc: nat): (r: Run)
    requires Well(d, L)
    ensures Inv(L, Recovered(d, L), r)
  {
    var r := Run(State(d, d, HeadList(d, L), seq(nproc, _ => Idle), Recovering(0)), [], 0, d, 0);
    NoneActive(r.s.ops);
    ReservedBounds(r.s.ops);
    assert RecoverWrites(d, L)[..0] == [];
    assert forall i :: 0 <= i < |r.s.lh| ==> L.Home(d, HeadList(d, L)[i]);
    r
  }

  /** The outcome of a whole run; every state it passes through satisfies the invariant. */
  function Exec(L: Layout, base: Image, r: Run, es: seq<Event>): (o: Outcome)
    requires Inv(L, base, r)
    ensures o.Ok? ==> Inv(L, base, o.r)
  {
    if es == [] then Ok(r) else
    match Exec(L, base, r, es[..|es| - 1])
    case Ok(m) =>
      var o := Step(L, m, es[|es| - 1]);
      assert o.Ok? ==> Inv(L, base, o.r) by { if o.Ok? { StepKeeps(L, base, m, es[|es| - 1]); } }
      o
    case stuck => stuck
  }

  /** The run es after power-on with disk d. */
  function Ran(L: Layout, d: Image, nproc: nat, es: seq<Event>): Outcome
    requires Well(d, L)
  {
    Exec(L, Recovered(d, L), Boot(d, L, nproc), es)
  }

  /** Crash safety.  Stop any run anywhere, power-fail included, and recover: the home blocks
      are the effect of the durable updates on the state first booted, and those updates are
      all of the updates of some operations that ended and none of any other's. */
  lemma CrashSafety(L: Layout, d: Image, nproc: nat, es: seq<Event>)
    requires Well(d, L)
    requires Ran(L, d, nproc, es).Ok?
    ensures var r := Ran(L, d, nproc, es).r;
            && Well(r.s.disk, L) && r.durable <= |r.hist|
            && SameHome(Recovered(r.s.disk, L), Effect(Recovered(d, L), r.hist[..r.durable]), L)
            && Whole(r)
  {
    CrashLeaves(L, Recovered(d, L), Ran(L, d, nproc, es).r);
  }

  /** Between crashes readers see every update, committed or not, and once no operation is
      running every update is durable. */
  lemma ReadersSeeAll(L: Layout, d: Image, nproc: nat, es: seq<Event>)
    requires Well(d, L)
    requires Ran(L, d, nproc, es).Ok?
    ensures var r := Ran(L, d, nproc, es).r;
            && (!r.s.phase.Recovering? ==> SameHome(r.s.cur, Effect(Recovered(d, L), r.hist), L))
            && (r.s.phase.Running? && (forall p :: 0 <= p < |r.s.ops| ==> r.s.ops[p].Idle?)
                ==> r.durable == |r.hist|)
  {
    NoneActive(Ran(L, d, nproc, es).r.s.ops);
  }

  /** Durability: no step, a crash included, loses or changes a durable update. */
  lemma DurableStays(L: Layout, base: Image, r: Run, e: Event)
    requires Inv(L, base, r) && Step(L, r, e).Ok?
    ensures var t := Step(L, r, e).r;
            r.durable <= t.durable <= |t.hist| && t.hist[..r.durable] == r.hist[..r.durable]
  {
    hide DiskInv, HomeHist, Settled, GoodHead, Reservation, FreshIds, Whole, NextCommitWrite;
  }

  /** Exactly when a step panics, for a log of more than LOGSIZE blocks: a log_write finds LOGSIZE
      blocks listed, or a write of a commit finds no free buffer, every one being pinned or held
      by somebody else.  end_op's own panic never happens. */
  lemma PanicsExactly(L: Layout, base: Image, r: Run, e: Event)
    requires Inv(L, base, r) && L.size > LOGSIZE
    ensures Step(L, r, e).Panic? <==> LogsOnFull(L, r.s, e) || WritesWithoutBuffer(r.s, e)
  {
    NoneActive(r.s.ops);
    ReservedBounds(r.s.ops);
  }

  predicate LogsOnFull(L: Layout, s: State, e: Event) {
    && e.LogWrite? && e.p < |s.ops| && s.ops[e.p].Active? && L.Home(s.disk, e.block)
    && |s.ops[e.p].blocks + {e.block}| <= MAXOPBLOCKS
    && |s.lh| == LOGSIZE
  }

  predicate WritesWithoutBuffer(s: State, e: Event) {
    e.DiskWrite? && s.phase.Committing? && Pins(s) + e.held >= NBUF
  }

  /** With nobody else holding a buffer, a commit panics exactly when its group is as large as the
      buffer pool, and then at its first write: a smaller group is written to the end. */
  lemma CommitPanicsExactly(L: Layout, base: Image, r: Run)
    requires Inv(L, base, r) && L.size > LOGSIZE && r.s.phase == Committing(0)
    ensures Step(L, r, DiskWrite(0)).Panic? <==> |r.s.lh| == NBUF
    ensures |r.s.lh| < NBUF ==> Finishes(Exec(L, base, r, Writes(2 * |r.s.lh| + 2)), r)
  {
    hide Inv, Exec, Written, NextCommitWrite;
    ShapeKnown(L, base, r);
    if |r.s.lh| < NBUF {
      WritesOn(L, base, r, 2 * |r.s.lh| + 2);
      AllWritten(r, Exec(L, base, r, Writes(2 * |r.s.lh| + 2)).r);
    }
  }

  // The commit is over, and everything is durable.
  predicate Finishes(o: Outcome, r: Run) {
    o.Ok? && o.r.s.phase.Running? && o.r.hist == r.hist && o.r.durable == |r.hist|
  }

  function Writes(n: nat): (es: seq<Event>)
    ensures |es| == n
  {
    seq(n, _ => DiskWrite(0))
  }

  lemma AllWritten(r: Run, t: Run)
    requires Written(r, t, 2 * |r.s.lh| + 2)
    ensures Finishes(Ok(t), r)
  {
  }

  // From r, the commit after n of its writes.
  predicate Written(r: Run, t: Run, n: nat) {
    && t.hist == r.hist
    && if n == 2 * |r.s.lh| + 2 then t.s.phase.Running? && t.durable == |r.hist|
       else t.s.phase == Committing(n) && t.s.lh == r.s.lh && (n > |r.s.lh| ==> t.durable == |r.hist|)
  }

  lemma WriteOne(L: Layout, r: Run, t: Run, n: nat)
    requires Shape(L, t) && Written(r, t, n) && |r.s.lh| < NBUF && n < 2 * |r.s.lh| + 2
    ensures var o := Step(L, t, DiskWrite(0)); o.Ok? && Written(r, o.r, n + 1)
  {
    hide NextCommitWrite, Apply, Well;
  }

  lemma ShapeKnown(L: Layout, base: Image, r: Run)
    requires Inv(L, base, r)
    ensures Shape(L, r)
  {
  }

  lemma {:induction false} WritesOn(L: Layout, base: Image, r: Run, n: nat)
    requires Inv(L, base, r) && r.s.phase == Committing(0) && |r.s.lh| < NBUF && n <= 2 * |r.s.lh| + 2
    ensures var o := Exec(L, base, r, Writes(n)); o.Ok? && Written(r, o.r, n)
  {
    hide Inv, Step, Shape;
    if n > 0 {
      WritesOn(L, base, r, n - 1);
      var es := Writes(n);
      assert es[..n - 1] == Writes(n - 1);
      var t := Exec(L, base, r, es[..n - 1]).r;
      ShapeKnown(L, base, t);
      WriteOne(L, r, t, n - 1);
    }
  }

  /** The guards a caller can check: an operation that has logged fewer than MAXOPBLOCKS blocks
      never panics, whatever the others do, and a commit does not while its group and the buffers
      others hold are fewer than the pool. */
  lemma WithinBudgetNoPanic(L: Layout, base: Image, r: Run, e: Event)
    requires Inv(L, base, r) && L.size > LOGSIZE
    requires e.LogWrite? ==> e.p < |r.s.ops| && r.s.ops[e.p].Active? ==> |r.s.ops[e.p].blocks| < MAXOPBLOCKS
    requires e.DiskWrite? && r.s.phase.Committing? ==> |r.s.lh| + e.held < NBUF
    ensures !Step(L, r, e).Panic?
  {
    PanicsExactly(L, base, r, e);
    ReservedBounds(r.s.ops);
    if e.LogWrite? && e.p < |r.s.ops| { assert Budget(r.s.ops[e.p]) <= Reserved(r.s.ops); }
  }
}
