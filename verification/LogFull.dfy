/** Two runs that panic although every operation stays within MAXOPBLOCKS distinct blocks: log_write
    looks for a full log before it looks for the block to absorb, and a full log pins every buffer. */
module LogFull {
  import opened Storage
  import opened LogMachine
  import opened LogSafety

  function Zero(): Block { seq(WORDS, i => 0) }

  function Disk0(): Image { seq(100, i => Zero()) }

  const LOG: Layout := Layout(2, 31)

  // Boot and start three operations.
  const THREE: seq<Event> := [DiskWrite(0), Begin(0), Begin(1), Begin(2)]

  // Operation i / 10 logs block 40 + i, so each logs ten blocks of its own.
  function Fill(m: nat): (es: seq<Event>)
    ensures |es| == m
  {
    seq(m, i requires 0 <= i => LogWrite(i / 10, 40 + i, Zero()))
  }

  function After(es: seq<Event>): Outcome {
    Exec(LOG, Recovered(Disk0(), LOG), Boot(Disk0(), LOG, 3), es)
  }

  lemma AfterOneMore(es: seq<Event>, e: Event)
    requires After(es).Ok?
    ensures After(es + [e]) == Step(LOG, After(es).r, e)
  {
    assert (es + [e])[..|es|] == es;
  }

  function Range(lo: nat, hi: nat): (s: set<nat>)
    requires lo <= hi
    ensures |s| == hi - lo && forall x: nat :: x in s <==> lo <= x < hi
    decreases hi - lo
  {
    if lo == hi then {} else Range(lo, hi - 1) + {hi - 1}
  }

  // What operation p has logged once m blocks have been logged in all.
  function Logged(p: nat, m: nat): set<nat> {
    var lo := 40 + 10 * p;
    var hi := 40 + (if m < 10 * p + 10 then m else 10 * p + 10);
    if hi <= lo then {} else Range(lo, hi)
  }

  function Listed(m: nat): (lh: seq<nat>)
    ensures |lh| == m && forall i :: 0 <= i < m ==> lh[i] == 40 + i
  {
    seq(m, i requires 0 <= i => 40 + i)
  }

  predicate Filled(r: Run, m: nat) {
    && r.s.phase.Running? && r.s.lh == Listed(m) && |r.s.disk| == 100
    && |r.s.ops| == 3 && forall p :: 0 <= p < 3 ==> r.s.ops[p].Active? && r.s.ops[p].blocks == Logged(p, m)
  }

  // The first k operations have begun and logged nothing.
  predicate Fresh(r: Run, k: nat) {
    && r.s.phase.Running? && r.s.lh == [] && |r.s.disk| == 100
    && |r.s.ops| == 3
    && forall p :: 0 <= p < 3 ==> if p < k then r.s.ops[p].Active? && r.s.ops[p].blocks == {} else r.s.ops[p] == Idle
  }

  lemma Booted()
    ensures After(THREE[..1]).Ok? && Fresh(After(THREE[..1]).r, 0)
  {
    assert After([]) == Ok(Boot(Disk0(), LOG, 3));
    assert HeadList(Disk0(), LOG) == [];
    AfterOneMore([], DiskWrite(0));
    assert [] + [DiskWrite(0)] == THREE[..1];
  }

  lemma StartsOne(r: Run, k: nat)
    requires k < 3 && Shape(LOG, r) && Fresh(r, k) && Outstanding(r.s.ops) == k
    ensures var o := Step(LOG, r, Begin(k)); o.Ok? && Fresh(o.r, k + 1) && Outstanding(o.r.s.ops) == k + 1
  {
    WeighUpdate(r.s.ops, One, k, Active(r.next, {}));
  }

  predicate Opens(es: seq<Event>, k: nat) {
    var o := After(es);
    o.Ok? && Fresh(o.r, k) && Outstanding(o.r.s.ops) == k
  }

  lemma OpensOneMore(es: seq<Event>, k: nat)
    requires k < 3 && Opens(es, k)
    ensures Opens(es + [Begin(k)], k + 1)
  {
    AfterOneMore(es, Begin(k));
    StartsOne(After(es).r, k);
  }

  lemma {:induction false} Started(k: nat)
    requires k <= 3
    ensures Opens(THREE[..1 + k], k)
  {
    hide Opens;
    if k == 0 {
      OpensFirst();
    } else {
      Started(k - 1);
      assert THREE[..1 + k] == THREE[..k] + [Begin(k - 1)];
      OpensOneMore(THREE[..k], k - 1);
    }
  }

  lemma OpensFirst()
    ensures Opens(THREE[..1], 0)
  {
    Booted();
    NoneActive(After(THREE[..1]).r.s.ops);
  }

  lemma LoggedOneMore(p: nat, n: nat)
    requires p < 3 && n < 30
    ensures Logged(p, n + 1) == if p == n / 10 then Logged(p, n) + {40 + n} else Logged(p, n)
    ensures |Logged(p, n + 1)| <= MAXOPBLOCKS
  {
  }

  lemma FillsOne(r: Run, n: nat)
    requires n < 30 && Shape(LOG, r) && Filled(r, n)
    ensures var o := Step(LOG, r, LogWrite(n / 10, 40 + n, Zero())); o.Ok? && Filled(o.r, n + 1)
  {
    hide Well, Logged, Outstanding;
    var p := n / 10;
    NoneActive(r.s.ops);
    assert r.s.ops[p].Active?;
    LoggedOneMore(p, n);
    var o := Step(LOG, r, LogWrite(p, 40 + n, Zero()));
    assert o.Ok?;
    assert o.r.s.lh == Listed(n + 1);
    forall q | 0 <= q < 3 ensures o.r.s.ops[q].Active? && o.r.s.ops[q].blocks == Logged(q, n + 1) {
      LoggedOneMore(q, n);
    }
  }

  predicate Reaches(es: seq<Event>, m: nat) {
    var o := After(es);
    o.Ok? && Filled(o.r, m)
  }

  lemma ReachesOneMore(es: seq<Event>, n: nat)
    requires n < 30 && Reaches(es, n)
    ensures Reaches(es + [LogWrite(n / 10, 40 + n, Zero())], n + 1)
  {
    AfterOneMore(es, LogWrite(n / 10, 40 + n, Zero()));
    FillsOne(After(es).r, n);
  }

  lemma ReachesStart()
    ensures Reaches(THREE + Fill(0), 0)
  {
    hide Exec, Step, Weigh;
    Started(3);
    assert THREE + Fill(0) == THREE[..4];
    forall p | 0 <= p < 3 ensures Logged(p, 0) == {} { }
    assert Filled(After(THREE[..4]).r, 0);
  }

  lemma FillOneMore(m: nat)
    ensures THREE + Fill(m + 1) == THREE + Fill(m) + [LogWrite(m / 10, 40 + m, Zero())]
  {
    assert Fill(m + 1) == Fill(m) + [LogWrite(m / 10, 40 + m, Zero())];
  }

  lemma {:induction false} Fills(m: nat)
    requires m <= 30
    ensures Reaches(THREE + Fill(m), m)
  {
    if m == 0 {
      ReachesStart();
    } else {
      Fills(m - 1);
      FillOneMore(m - 1);
      ReachesOneMore(THREE + Fill(m - 1), m - 1);
    }
  }

  /** Three operations log ten blocks each, and the first then logs one of its own blocks
      again: every operation keeps to MAXOPBLOCKS blocks, and the kernel panics. */
  lemma RewritePanics()
    ensures exists es: seq<Event>, p: nat, b: nat :: After(es).Ok?
              && p < |After(es).r.s.ops| && After(es).r.s.ops[p].Active?
              && b in After(es).r.s.ops[p].blocks && |After(es).r.s.ops[p].blocks| <= MAXOPBLOCKS
              && After(es + [LogWrite(p, b, Zero())]).Panic?
  {
    hide Exec, Step, Weigh;
    Fills(30);
    var es := THREE + Fill(30);
    var r := After(es).r;
    assert 40 in Logged(0, 30);
    assert r.s.ops[0].blocks + {40} == r.s.ops[0].blocks;
    PanicsExactly(LOG, Recovered(Disk0(), LOG), r, LogWrite(0, 40, Zero()));
    AfterOneMore(es, LogWrite(0, 40, Zero()));
  }

  // k of the three operations have ended, and the last one has started the commit.
  predicate Ended(r: Run, k: nat) {
    && r.s.phase == (if k < 3 then Running else Committing(0)) && r.s.lh == Listed(30) && |r.s.disk| == 100
    && |r.s.ops| == 3 && forall p :: 0 <= p < 3 ==> (r.s.ops[p].Active? <==> p >= k)
  }

  lemma EndsOne(r: Run, k: nat)
    requires k < 3 && Shape(LOG, r) && Ended(r, k)
    ensures var o := Step(LOG, r, End(k)); o.Ok? && Ended(o.r, k + 1)
  {
    NoneActive(r.s.ops[k := Idle]);
  }

  function Ends(k: nat): (es: seq<Event>)
    requires k <= 3
  {
    [End(0), End(1), End(2)][..k]
  }

  predicate Closes(es: seq<Event>, k: nat) {
    var o := After(es);
    o.Ok? && Ended(o.r, k)
  }

  lemma ClosesOneMore(es: seq<Event>, k: nat)
    requires k < 3 && Closes(es, k)
    ensures Closes(es + [End(k)], k + 1)
  {
    AfterOneMore(es, End(k));
    EndsOne(After(es).r, k);
  }

  lemma {:induction false} Endings(k: nat)
    requires k <= 3
    ensures Closes(THREE + Fill(30) + Ends(k), k)
  {
    hide Ended, After;
    if k == 0 {
      FilledIsEnded();
      assert THREE + Fill(30) + Ends(0) == THREE + Fill(30);
    } else {
      Endings(k - 1);
      assert THREE + Fill(30) + Ends(k) == THREE + Fill(30) + Ends(k - 1) + [End(k - 1)];
      ClosesOneMore(THREE + Fill(30) + Ends(k - 1), k - 1);
    }
  }

  lemma FilledIsEnded()
    ensures Closes(THREE + Fill(30), 0)
  {
    Fills(30);
  }

  lemma FirstWritePanics(r: Run)
    requires Shape(LOG, r) && Ended(r, 3)
    ensures Step(LOG, r, DiskWrite(0)).Panic?
  {
    hide Well;
  }

  /** Three operations log ten blocks each and end; nobody else holds a buffer, and the commit
      that the last one starts panics at its first write. */
  lemma FullGroupPanics()
    ensures After(THREE + Fill(30) + [End(0), End(1), End(2)]).Ok?
    ensures After(THREE + Fill(30) + [End(0), End(1), End(2)] + [DiskWrite(0)]).Panic?
  {
    hide Ended, Exec, Step, Fill;
    assert [End(0), End(1), End(2)] == Ends(3);
    Endings(3);
    FirstWritePanics(After(THREE + Fill(30) + Ends(3)).r);
    AfterOneMore(THREE + Fill(30) + Ends(3), DiskWrite(0));
  }
}
