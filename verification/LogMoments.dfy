/** What a crash recovers to, in terms of the run alone: what readers saw at an earlier moment when
    nobody was inside an operation.  So whatever the operations keep between them survives crashes. */
module LogMoments {
  import opened Storage
  import opened LogMachine
  import opened LogSafety

  /** Nobody is inside an operation, and the last crash has been recovered from. */
  predicate Quiet(s: State) {
    !s.phase.Recovering? && forall p :: 0 <= p < |s.ops| ==> s.ops[p].Idle?
  }

  // After i events the log was quiet, with the updates h made so far.
  predicate QuietAt(L: Layout, d: Image, nproc: nat, es: seq<Event>, i: nat, h: seq<Update>)
    requires Well(d, L)
  {
    && i <= |es| && Ran(L, d, nproc, es[..i]).Ok?
    && Quiet(Ran(L, d, nproc, es[..i]).r.s) && Ran(L, d, nproc, es[..i]).r.hist == h
  }

  // Updates become durable only while a commit runs, and then all of them at once.
  lemma BecomesDurable(L: Layout, base: Image, r: Run, e: Event)
    requires Inv(L, base, r) && Step(L, r, e).Ok?
    ensures var t := Step(L, r, e).r;
            && r.durable <= |r.hist| && t.durable <= |t.hist|
            && (t.hist[..t.durable] == r.hist[..r.durable] || (t.hist[..t.durable] == r.hist && Quiet(r.s)))
  {
    hide DiskInv, HomeHist, FreshIds, Whole, NextCommitWrite, NextRecoverWrite, Well;
    NoneActive(r.s.ops);
  }

  /** In every run, the durable updates are those made up to some quiet moment of it. */
  lemma {:induction false} DurableMoment(L: Layout, d: Image, nproc: nat, es: seq<Event>) returns (i: nat)
    requires Well(d, L) && Ran(L, d, nproc, es).Ok?
    ensures var r := Ran(L, d, nproc, es).r;
            r.durable <= |r.hist| && (r.hist[..r.durable] == [] || QuietAt(L, d, nproc, es, i, r.hist[..r.durable]))
  {
    hide Inv, Step, Recovered, Quiet;
    i := 0;
    if es != [] {
      var n := |es| - 1;
      i := DurableMoment(L, d, nproc, es[..n]);
      var m := Ran(L, d, nproc, es[..n]).r;
      BecomesDurable(L, Recovered(d, L), m, es[n]);
      if i <= n { assert es[..n][..i] == es[..i]; }
      if !(Ran(L, d, nproc, es).r.hist[..Ran(L, d, nproc, es).r.durable] == m.hist[..m.durable]) { i := n; }
    }
  }

  /** Stop a run anywhere and recover: the home blocks are those of the disk first booted, or those
      readers saw at a quiet moment of the run. */
  lemma RecoversMoment(L: Layout, d: Image, nproc: nat, es: seq<Event>) returns (i: nat)
    requires Well(d, L) && Ran(L, d, nproc, es).Ok?
    ensures Well(Ran(L, d, nproc, es).r.s.disk, L)
    ensures var now := Recovered(Ran(L, d, nproc, es).r.s.disk, L);
            || SameHome(now, Recovered(d, L), L)
            || (i <= |es| && Ran(L, d, nproc, es[..i]).Ok? && Quiet(Ran(L, d, nproc, es[..i]).r.s)
                && SameHome(now, Ran(L, d, nproc, es[..i]).r.s.cur, L))
  {
    hide Inv, Exec, Recovered, Quiet, Whole;
    CrashSafety(L, d, nproc, es);
    i := DurableMoment(L, d, nproc, es);
    var r := Ran(L, d, nproc, es).r;
    if r.hist[..r.durable] != [] {
      ReadersSeeAll(L, d, nproc, es[..i]);
      QuietRuns(Ran(L, d, nproc, es[..i]).r.s);
    }
  }

  lemma QuietRuns(s: State)
    requires Quiet(s)
    ensures !s.phase.Recovering?
  {
  }

  /** What holds of the home blocks. */
  ghost predicate OfHome(good: Image -> bool, L: Layout) {
    forall a: Image, b: Image :: SameHome(a, b, L) && good(b) ==> good(a)
  }

  /** What the operations keep: it holds of what readers see whenever the log is quiet. */
  ghost predicate KeptWhenQuiet(good: Image -> bool, L: Layout, d: Image, nproc: nat, es: seq<Event>)
    requires Well(d, L)
  {
    forall i :: 0 <= i <= |es| && Ran(L, d, nproc, es[..i]).Ok? && Quiet(Ran(L, d, nproc, es[..i]).r.s)
                ==> good(Ran(L, d, nproc, es[..i]).r.s.cur)
  }

  /** Consistency survives crashes: a property of the home blocks that holds of the disk first
      booted, and of what readers see whenever nobody is inside an operation, holds after a crash
      at any moment, in the middle of operations, commits or recoveries too. */
  lemma ConsistentAfterCrash(good: Image -> bool, L: Layout, d: Image, nproc: nat, es: seq<Event>)
    requires Well(d, L) && Ran(L, d, nproc, es).Ok? && OfHome(good, L)
    requires good(Recovered(d, L)) && KeptWhenQuiet(good, L, d, nproc, es)
    ensures Well(Ran(L, d, nproc, es).r.s.disk, L) && good(Recovered(Ran(L, d, nproc, es).r.s.disk, L))
  {
    hide Ran, Recovered, Quiet;
    var i := RecoversMoment(L, d, nproc, es);
  }
}
