/** csim.c's counters and contents as a function of the trace, and true LRU. */
module Lru {

  // t moved, or added, to the front.
  function Without(s: seq<nat>, t: nat): (r: seq<nat>)
    ensures forall x :: x in r <==> x in s && x != t
    ensures |r| <= |s| && (t in s ==> |r| < |s|)
  {
    if s == [] then [] else if s[0] == t then Without(s[1..], t) else [s[0]] + Without(s[1..], t)
  }

  function Take(s: seq<nat>, n: nat): seq<nat> {
    if |s| <= n then s else s[..n]
  }

  function Touch(s: seq<nat>, t: nat): seq<nat> {
    [t] + Without(s, t)
  }

  /** All tags of a trace, most recently used first. */
  function Recency(trace: seq<nat>): seq<nat> {
    if trace == [] then [] else Touch(Recency(trace[..|trace| - 1]), trace[|trace| - 1])
  }

  // When t was last used, counting from 1; 0 is never.
  function LastUse(trace: seq<nat>, t: nat): (n: nat)
    ensures n <= |trace| && (n == 0 <==> t !in trace) && (n > 0 ==> trace[n - 1] == t)
  {
    if trace == [] then 0
    else if trace[|trace| - 1] == t then |trace|
    else LastUse(trace[..|trace| - 1], t)
  }

  ghost predicate Ordered(s: seq<nat>, trace: seq<nat>) {
    forall i, j :: 0 <= i < j < |s| ==> LastUse(trace, s[i]) > LastUse(trace, s[j])
  }

  lemma {:induction false} WithoutKeepsOrder(s: seq<nat>, t: nat, trace: seq<nat>)
    requires Ordered(s, trace)
    ensures Ordered(Without(s, t), trace)
  {
    if s != [] {
      assert forall i :: 0 <= i < |s[1..]| ==> s[1..][i] == s[i + 1];
      WithoutKeepsOrder(s[1..], t, trace);
      var r := Without(s[1..], t);
      forall j | 0 <= j < |r| ensures LastUse(trace, s[0]) > LastUse(trace, r[j]) {
        assert r[j] in s[1..];
        var k :| 0 <= k < |s[1..]| && s[1..][k] == r[j];
        assert s[k + 1] == r[j];
      }
    }
  }

  // One more use of t: it was last used just now, the others as before.
  lemma UseOneMore(trace: seq<nat>, x: nat)
    requires trace != []
    ensures var n := |trace| - 1;
            LastUse(trace, x) == (if x == trace[n] then |trace| else LastUse(trace[..n], x))
            && (x in trace <==> x in trace[..n] || x == trace[n])
  {
    assert trace == trace[..|trace| - 1] + [trace[|trace| - 1]];
  }

  lemma TouchOrders(s: seq<nat>, trace: seq<nat>)
    requires trace != [] && Ordered(s, trace[..|trace| - 1])
    ensures Ordered(Touch(s, trace[|trace| - 1]), trace)
  {
    hide Without, LastUse;
    var n := |trace| - 1;
    var t := trace[n];
    WithoutKeepsOrder(s, t, trace[..n]);
    var r := Without(s, t);
    forall i, j | 0 <= i < j < |Touch(s, t)| ensures LastUse(trace, Touch(s, t)[i]) > LastUse(trace, Touch(s, t)[j]) {
      assert Touch(s, t)[j] == r[j - 1] && r[j - 1] in r;
      UseOneMore(trace, r[j - 1]);
      if i > 0 {
        assert r[i - 1] in r;
        UseOneMore(trace, r[i - 1]);
      } else {
        UseOneMore(trace, t);
      }
    }
  }

  /** Recency lists exactly the tags of the trace, each once, by the time of their last use. */
  lemma {:induction false} RecencyIsLru(trace: seq<nat>)
    ensures forall t :: t in Recency(trace) <==> t in trace
    ensures Ordered(Recency(trace), trace)
  {
    hide Without, LastUse, Ordered;
    if trace == [] {
      NothingOrdered(trace);
    } else {
      var n := |trace| - 1;
      RecencyIsLru(trace[..n]);
      TouchOrders(Recency(trace[..n]), trace);
      forall x ensures x in Recency(trace) <==> x in trace { UseOneMore(trace, x); }
    }
  }

  lemma NothingOrdered(trace: seq<nat>)
    ensures Ordered([], trace)
  {
  }

  // ---- keeping only E of them ----

  lemma {:induction false} TakeWithout(s: seq<nat>, t: nat, n: nat)
    requires n > 0 && forall i, j :: 0 <= i < j < |s| ==> s[i] != s[j]
    ensures Take(Without(Take(s, n), t), n - 1) == Take(Without(s, t), n - 1)
    decreases |s|
  {
    if s == [] || n == 1 {
    } else if s[0] == t {
      Absent(s[1..], t);
      assert Take(s, n)[1..] == Take(s[1..], n - 1);
      TailAbsent(s[1..], t, n - 1);
      Absent(Take(s, n)[1..], t);
      assert Take(s[1..], n - 1) == Take(Take(s[1..], n - 1), n - 1);
    } else {
      hide Take;
      var rest := s[1..];
      TakeWithout(rest, t, n - 1);
      assert s == [s[0]] + rest;
      TakeFront(s[0], rest, n);
      var cut := Take(s, n);
      assert cut[0] == s[0] && cut[1..] == Take(rest, n - 1);
      TakeFront(s[0], Without(Take(rest, n - 1), t), n - 1);
      TakeFront(s[0], Without(rest, t), n - 1);
    }
  }

  lemma {:induction false} Absent(s: seq<nat>, t: nat)
    requires t !in s
    ensures Without(s, t) == s
  {
    if s != [] { Absent(s[1..], t); }
  }

  lemma Distinct(trace: seq<nat>)
    ensures forall i, j :: 0 <= i < j < |Recency(trace)| ==> Recency(trace)[i] != Recency(trace)[j]
  {
    RecencyIsLru(trace);
  }

  /** Moving to the front and cutting to n loses nothing that a longer list would have kept. */
  lemma TouchTake(trace: seq<nat>, t: nat, n: nat)
    requires n > 0
    ensures Take(Touch(Take(Recency(trace), n), t), n) == Take(Touch(Recency(trace), t), n)
  {
    Distinct(trace);
    var s := Recency(trace);
    TakeWithout(s, t, n);
    TakeFront(t, Without(Take(s, n), t), n);
    TakeFront(t, Without(s, t), n);
  }

  lemma TakeFront(t: nat, s: seq<nat>, n: nat)
    requires n > 0
    ensures Take([t] + s, n) == [t] + Take(s, n - 1)
  {
  }

  // ---- the simulator ----

  datatype Op = Load | Store | Modify

  datatype Record = Record(op: Op, address: nat)

  datatype Geometry = Geometry(S: nat, E: nat, B: nat) {
    predicate Ok() {
      S > 0 && E > 0 && B > 0
    }

    function Index(address: nat): (i: nat)
      requires Ok()
      ensures i < S
    {
      address / B % S
    }

    function Tag(address: nat): nat
      requires Ok()
    {
      address / B / S
    }
  }

  /** Each set's valid tags, most recently used first, and the counters. */
  datatype Sim = Sim(sets: seq<seq<nat>>, hits: nat, misses: nat, evictions: nat)

  function Fresh(g: Geometry): Sim {
    Sim(seq(g.S, _ => []), 0, 0, 0)
  }

  function AccessLine(g: Geometry, m: Sim, i: nat, t: nat): Sim
    requires i < |m.sets|
  {
    var s := m.sets[i];
    var after := m.(sets := m.sets[i := Take(Touch(s, t), g.E)]);
    if t in s then after.(hits := m.hits + 1)
    else if |s| < g.E then after.(misses := m.misses + 1)
    else after.(misses := m.misses + 1, evictions := m.evictions + 1)
  }

  function AccessMemory(g: Geometry, m: Sim, r: Record): (n: Sim)
    requires g.Ok() && |m.sets| == g.S
    ensures |n.sets| == g.S
  {
    var after := AccessLine(g, m, g.Index(r.address), g.Tag(r.address));
    if r.op.Modify? then after.(hits := after.hits + 1) else after
  }

  function Simulate(g: Geometry, trace: seq<Record>): (m: Sim)
    requires g.Ok()
    ensures |m.sets| == g.S
  {
    if trace == [] then Fresh(g) else AccessMemory(g, Simulate(g, trace[..|trace| - 1]), trace[|trace| - 1])
  }

  // The tags used in set i.
  function TagsOf(g: Geometry, trace: seq<Record>, i: nat): seq<nat>
    requires g.Ok()
  {
    if trace == [] then [] else
    var n := |trace| - 1;
    TagsOf(g, trace[..n], i) + if g.Index(trace[n].address) == i then [g.Tag(trace[n].address)] else []
  }

  /** Over any trace, each set holds exactly the E most recently used of its tags, in order. */
  lemma {:induction false} SetsAreLru(g: Geometry, trace: seq<Record>, i: nat)
    requires g.Ok() && i < g.S
    ensures Simulate(g, trace).sets[i] == Take(Recency(TagsOf(g, trace, i)), g.E)
  {
    if trace != [] {
      hide Take, Recency;
      var n := |trace| - 1;
      SetsAreLru(g, trace[..n], i);
      OneMore(g, trace, i);
      TouchTake(TagsOf(g, trace[..n], i), g.Tag(trace[n].address), g.E);
    } else {
      assert TagsOf(g, trace, i) == [];
    }
  }

  lemma OneMore(g: Geometry, trace: seq<Record>, i: nat)
    requires g.Ok() && i < g.S && trace != []
    ensures var n := |trace| - 1;
            var m, t := Simulate(g, trace[..n]), g.Tag(trace[n].address);
            if g.Index(trace[n].address) == i then
              && Simulate(g, trace).sets[i] == Take(Touch(m.sets[i], t), g.E)
              && Recency(TagsOf(g, trace, i)) == Touch(Recency(TagsOf(g, trace[..n], i)), t)
            else
              Simulate(g, trace).sets[i] == m.sets[i] && TagsOf(g, trace, i) == TagsOf(g, trace[..n], i)
  {
    hide Take, Touch;
    var n := |trace| - 1;
    var u, t := TagsOf(g, trace[..n], i), g.Tag(trace[n].address);
    assert (u + [t])[..|u + [t]| - 1] == u;
  }

  /** An M record, counted as one access and one more hit, is the same as two accesses. */
  lemma ModifyIsTwoAccesses(g: Geometry, m: Sim, address: nat)
    requires g.Ok() && |m.sets| == g.S
    requires forall i, j, k :: 0 <= i < g.S && 0 <= j < k < |m.sets[i]| ==> m.sets[i][j] != m.sets[i][k]
    ensures AccessMemory(g, m, Record(Modify, address)) ==
            AccessMemory(g, AccessMemory(g, m, Record(Load, address)), Record(Store, address))
  {
    var i, t := g.Index(address), g.Tag(address);
    var s := m.sets[i];
    var once := AccessLine(g, m, i, t);
    assert once.sets[i][0] == t && t in once.sets[i];
    Absent(Without(s, t), t);
    TakeFront(t, Without(s, t), g.E);
    TailAbsent(Without(s, t), t, g.E - 1);
    Absent(Take(Without(s, t), g.E - 1), t);
    assert once.sets[i][1..] == Take(Without(s, t), g.E - 1);
    assert Touch(once.sets[i], t) == once.sets[i];
    var twice := AccessLine(g, once, i, t);
    assert twice.sets == once.sets;
  }

  lemma TailAbsent(s: seq<nat>, t: nat, n: nat)
    requires t !in s
    ensures t !in Take(s, n)
  {
  }

  function Total(sets: seq<seq<nat>>): nat {
    if sets == [] then 0 else |sets[0]| + Total(sets[1..])
  }

  lemma {:induction false} TotalUpdate(sets: seq<seq<nat>>, i: nat, s: seq<nat>)
    requires i < |sets|
    ensures Total(sets[i := s]) + |sets[i]| == Total(sets) + |s|
  {
    if i > 0 {
      assert sets[i := s][1..] == sets[1..][i - 1 := s];
      TotalUpdate(sets[1..], i - 1, s);
    } else {
      assert sets[i := s][1..] == sets[1..];
    }
  }

  lemma {:induction false} FreshTotal(n: nat)
    ensures Total(seq<seq<nat>>(n, _ => [])) == 0
  {
    if n == 0 {
      assert seq<seq<nat>>(n, _ => []) == [];
    } else {
      FreshTotal(n - 1);
      assert seq<seq<nat>>(n, _ => [])[1..] == seq<seq<nat>>(n - 1, _ => []);
    }
  }

  lemma {:induction false} WithoutOne(s: seq<nat>, t: nat)
    requires t in s && forall i, j :: 0 <= i < j < |s| ==> s[i] != s[j]
    ensures |Without(s, t)| == |s| - 1
  {
    if s[0] == t { Absent(s[1..], t); } else { WithoutOne(s[1..], t); }
  }

  lemma TouchSize(s: seq<nat>, t: nat, n: nat)
    requires 0 < n && |s| <= n && forall i, j :: 0 <= i < j < |s| ==> s[i] != s[j]
    ensures |Take(Touch(s, t), n)| == if t in s || |s| == n then |s| else |s| + 1
  {
    if t in s { WithoutOne(s, t); } else { Absent(s, t); }
  }

  // How many accesses a trace makes, an M record making two.
  function Accesses(trace: seq<Record>): nat {
    if trace == [] then 0 else
    Accesses(trace[..|trace| - 1]) + if trace[|trace| - 1].op.Modify? then 2 else 1
  }

  /** Every access is a hit or a miss, and every miss that did not evict filled a line. */
  lemma {:induction false} Conservation(g: Geometry, trace: seq<Record>)
    requires g.Ok()
    ensures var m := Simulate(g, trace);
            m.hits + m.misses == Accesses(trace) && m.misses == m.evictions + Total(m.sets)
  {
    hide Take, Touch, Recency, Total, TagsOf;
    if trace == [] {
      FreshTotal(g.S);
    } else {
      var n := |trace| - 1;
      Conservation(g, trace[..n]);
      var m, i, t := Simulate(g, trace[..n]), g.Index(trace[n].address), g.Tag(trace[n].address);
      SetIsSmall(g, trace[..n], i);
      TotalUpdate(m.sets, i, Take(Touch(m.sets[i], t), g.E));
      TouchSize(m.sets[i], t, g.E);
    }
  }

  lemma SetIsSmall(g: Geometry, trace: seq<Record>, i: nat)
    requires g.Ok() && i < g.S
    ensures var s := Simulate(g, trace).sets[i];
            |s| <= g.E && forall j, k :: 0 <= j < k < |s| ==> s[j] != s[k]
  {
    SetsAreLru(g, trace, i);
    Distinct(TagsOf(g, trace, i));
  }

  /** Inclusion: with one more line a set, each set holds what it held and perhaps one tag more,
      so that hits never decrease as E grows. */
  lemma {:induction false} MoreLinesMoreHits(g: Geometry, trace: seq<Record>, i: nat)
    requires g.Ok() && i < g.S
    ensures var h := g.(E := g.E + 1);
            && Simulate(g, trace).sets[i] <= Simulate(h, trace).sets[i]
            && Simulate(g, trace).hits <= Simulate(h, trace).hits
  {
    hide Recency, Touch;
    var h := g.(E := g.E + 1);
    SetsAreLru(g, trace, i);
    SetsAreLru(h, trace, i);
    SameTags(g, h, trace, i);
    if trace != [] {
      hide Take;
      var n := |trace| - 1;
      MoreLinesMoreHits(g, trace[..n], g.Index(trace[n].address));
      HitsGrow(g, h, Simulate(g, trace[..n]), Simulate(h, trace[..n]), trace[n]);
    }
  }

  lemma HitsGrow(g: Geometry, h: Geometry, m: Sim, n: Sim, r: Record)
    requires g.Ok() && h.Ok() && g.S == h.S == |m.sets| == |n.sets| && g.B == h.B
    requires m.hits <= n.hits && m.sets[g.Index(r.address)] <= n.sets[g.Index(r.address)]
    ensures AccessMemory(g, m, r).hits <= AccessMemory(h, n, r).hits
  {
    var s, t := m.sets[g.Index(r.address)], n.sets[g.Index(r.address)];
    assert forall x :: x in s ==> x in t;
  }

  lemma {:induction false} SameTags(g: Geometry, h: Geometry, trace: seq<Record>, i: nat)
    requires g.Ok() && h.Ok() && g.S == h.S && g.B == h.B
    ensures TagsOf(g, trace, i) == TagsOf(h, trace, i)
  {
    if trace != [] { SameTags(g, h, trace[..|trace| - 1], i); }
  }
}
