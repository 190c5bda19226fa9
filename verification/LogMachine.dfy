/** The log as an interleaved machine: any number of processes run operations that begin,
    log_write and end in any order, the last one out commits with one disk write per step,
    and a crash may fall between any two steps, during recovery as well. */
module LogMachine {
  import opened Storage

  // An operation between begin_op and end_op, and the blocks it has logged so far.
  datatype Op = Idle | Active(id: nat, blocks: set<nat>)

  // k counts the disk writes already done by the commit or the recovery in progress.
  datatype Phase = Running | Committing(k: nat) | Recovering(k: nat)

  /** cur is what bread returns for each block: the cached copy if there is one, otherwise
      what is on disk.  lh is the in-memory header. */
  datatype State = State(disk: Image, cur: Image, lh: seq<nat>, ops: seq<Op>, phase: Phase)

  datatype Update = Update(id: nat, block: nat, data: Block)

  /** The machine together with its history: every update since the start in order, how many
      of them belong to committed groups, the disk at the start of the commit or recovery in
      progress, and the next unused operation id. */
  datatype Run = Run(s: State, hist: seq<Update>, durable: nat, origin: Image, next: nat)

  datatype Event =
    | Begin(p: nat)
    | LogWrite(p: nat, block: nat, data: Block)
    | End(p: nat)
    // The next write of the commit or recovery in progress, while processes outside the log
    // reference `held` buffers that it has not pinned.
    | DiskWrite(held: nat)
    | Crash

  datatype Outcome = Blocked | Panic | Ok(r: Run)

  function Weigh(ops: seq<Op>, w: Op -> int): int {
    if ops == [] then 0 else Weigh(ops[..|ops| - 1], w) + w(ops[|ops| - 1])
  }

  const One: Op -> int := (o: Op) => if o.Active? then 1 else 0
  const Budget: Op -> int := (o: Op) => if o.Active? then MAXOPBLOCKS - |o.blocks| else 0

  /** log.outstanding */
  function Outstanding(ops: seq<Op>): int { Weigh(ops, One) }

  /** What the active operations may still add to the header. */
  function Reserved(ops: seq<Op>): int { Weigh(ops, Budget) }

  /** The write a commit issues after k others, reading the header list, the cache and the
      log slots as they are at that moment. */
  function NextCommitWrite(L: Layout, s: State, k: nat): Write
    requires L.Fits(s.disk) && |s.cur| == |s.disk| && |s.lh| <= LOGSIZE && |s.lh| < L.size
    requires forall i :: 0 <= i < |s.lh| ==> L.Home(s.disk, s.lh[i])
    requires k <= 2 * |s.lh| + 1
  {
    var n := |s.lh|;
    if k < n then assert L.Home(s.disk, s.lh[k]); Write(L.start + 1 + k, s.cur[s.lh[k]])
    else if k == n then HeadWrite(L, s.disk[L.start], s.lh)
    else if k <= 2 * n then Write(s.lh[k - n - 1], s.disk[L.start + 1 + (k - n - 1)])
    else HeadWrite(L, s.disk[L.start], [])
  }

  /** The same for recovery, which starts at the install step. */
  function NextRecoverWrite(L: Layout, s: State, k: nat): Write
    requires L.Fits(s.disk) && |s.cur| == |s.disk| && |s.lh| <= LOGSIZE && |s.lh| < L.size
    requires forall i :: 0 <= i < |s.lh| ==> L.Home(s.disk, s.lh[i])
    requires k <= |s.lh|
  {
    NextCommitWrite(L, s, |s.lh| + 1 + k)
  }

  /** Buffers pinned for listed blocks: all of them until install_trans drops them one by one. */
  function Pins(s: State): int {
    match s.phase
    case Running => |s.lh|
    case Committing(k) => if k <= |s.lh| then |s.lh| else 2 * |s.lh| + 1 - k
    case Recovering(_) => 0
  }

  // What the steps below need to be well defined; part of the invariant.
  predicate Shape(L: Layout, r: Run) {
    var s := r.s;
    && Well(s.disk, L) && |s.cur| == |s.disk| && Well(r.origin, L) && |r.origin| == |s.disk|
    && |s.lh| <= LOGSIZE && |s.lh| < L.size
    && (forall i :: 0 <= i < |s.lh| ==> L.Home(s.disk, s.lh[i]))
    && r.durable <= |r.hist|
    && (s.phase.Committing? ==> s.phase.k <= 2 * |s.lh| + 1)
    && (s.phase.Recovering? ==> s.phase.k <= |s.lh|)
  }

  /** One step of the system. */
  function Step(L: Layout, r: Run, e: Event): Outcome
    requires Shape(L, r)
  {
    var s := r.s;
    match e
    case Begin(p) =>
      if !(p < |s.ops| && s.ops[p].Idle?) || s.phase.Recovering? then Blocked
      else if s.phase.Committing? then Blocked
      else if |s.lh| + (Outstanding(s.ops) + 1) * MAXOPBLOCKS > LOGSIZE then Blocked
      else Ok(r.(s := s.(ops := s.ops[p := Active(r.next, {})]), next := r.next + 1))
    case LogWrite(p, b, data) =>
      if !(p < |s.ops| && s.ops[p].Active? && L.Home(s.disk, b)
           && |s.ops[p].blocks + {b}| <= MAXOPBLOCKS) then Blocked
      else if |s.lh| >= LOGSIZE || |s.lh| >= L.size - 1 then Panic
      else if Outstanding(s.ops) < 1 then Panic
      else
        var o := s.ops[p].(blocks := s.ops[p].blocks + {b});
        Ok(r.(s := s.(cur := s.cur[b := data], lh := Absorb(s.lh, b), ops := s.ops[p := o]),
              hist := r.hist + [Update(o.id, b, data)]))
    case End(p) =>
      if !(p < |s.ops| && s.ops[p].Active?) then Blocked
      else if s.phase.Committing? then Panic
      else
        var t := s.(ops := s.ops[p := Idle]);
        if Outstanding(t.ops) == 0 && s.lh != []
        then Ok(r.(s := t.(phase := Committing(0)), origin := s.disk))
        else Ok(r.(s := t))
    case DiskWrite(held) =>
      (match s.phase
       case Running => Blocked
       case Committing(k) =>
         // Every write starts with a bread of a log block, which needs a free buffer.
         if Pins(s) + held >= NBUF then Panic else
         var d := Apply(s.disk, NextCommitWrite(L, s, k));
         var durable := if k >= |s.lh| then |r.hist| else r.durable;
         if k == 2 * |s.lh| + 1
         then Ok(r.(s := s.(disk := d, lh := [], phase := Running), durable := durable))
         else Ok(r.(s := s.(disk := d, phase := Committing(k + 1)), durable := durable))
       case Recovering(k) =>
         var d := Apply(s.disk, NextRecoverWrite(L, s, k));
         if k == |s.lh|
         then Ok(r.(s := s.(disk := d, cur := d, lh := [], phase := Running)))
         else Ok(r.(s := s.(disk := d, cur := d, phase := Recovering(k + 1)))))
    case Crash =>
      // Memory is lost; the next boot reads the header from disk.
      Ok(r.(s := State(s.disk, s.disk, HeadList(s.disk, L), seq(|s.ops|, _ => Idle), Recovering(0)),
            hist := r.hist[..r.durable], origin := s.disk))
  }

  /** The home blocks after a series of updates. */
  function Effect(base: Image, h: seq<Update>): (r: Image)
    ensures |r| == |base|
  {
    if h == [] then base else
    var u := h[|h| - 1];
    var d := Effect(base, h[..|h| - 1]);
    if u.block < |d| then d[u.block := u.data] else d
  }
}
