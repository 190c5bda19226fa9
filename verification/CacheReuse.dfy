/** When an access hits, in terms of memory blocks alone, and the counters of a whole trace. */
module CacheReuse {
  import opened Lru

  /** Two addresses have the same set and tag exactly if they lie in the same block of memory. */
  lemma SameLine(g: Geometry, a: nat, b: nat)
    requires g.Ok()
    ensures g.Index(a) == g.Index(b) && g.Tag(a) == g.Tag(b) <==> a / g.B == b / g.B
  {
  }

  /** Block b is address / B; its set is the one its number leaves modulo S. */
  function BlockOf(g: Geometry, r: Record): nat
    requires g.Ok()
  {
    r.address / g.B
  }

  /** The blocks of b's set that have been accessed since b last was. */
  function Since(g: Geometry, trace: seq<Record>, b: nat): set<nat>
    requires g.Ok()
  {
    if trace == [] then {} else
    var n := |trace| - 1;
    var c := BlockOf(g, trace[n]);
    if c == b then {} else Since(g, trace[..n], b) + (if c % g.S == b % g.S then {c} else {})
  }

  /** The blocks of b's set that have been accessed at all. */
  function Ever(g: Geometry, trace: seq<Record>, b: nat): set<nat>
    requires g.Ok()
  {
    if trace == [] then {} else
    var n := |trace| - 1;
    var c := BlockOf(g, trace[n]);
    Ever(g, trace[..n], b) + (if c % g.S == b % g.S then {c} else {})
  }

  /** b has been accessed, and since then fewer than E other blocks of its set. */
  predicate Stays(g: Geometry, trace: seq<Record>, b: nat)
    requires g.Ok()
  {
    b in Ever(g, trace, b) && |Since(g, trace, b)| < g.E
  }

  datatype Counters = Counters(hits: nat, misses: nat, evictions: nat)

  /** What the counters should be. */
  function Expected(g: Geometry, trace: seq<Record>): Counters
    requires g.Ok()
  {
    if trace == [] then Counters(0, 0, 0) else
    var n := |trace| - 1;
    var c, b := Expected(g, trace[..n]), BlockOf(g, trace[n]);
    var more := if trace[n].op.Modify? then 1 else 0;
    if Stays(g, trace[..n], b) then Counters(c.hits + 1 + more, c.misses, c.evictions)
    else Counters(c.hits + more, c.misses + 1, c.evictions + if |Ever(g, trace[..n], b)| >= g.E then 1 else 0)
  }

  // ---- the same about tags ----

  function SinceTag(u: seq<nat>, t: nat): set<nat> {
    if u == [] then {} else
    var n := |u| - 1;
    if u[n] == t then {} else SinceTag(u[..n], t) + {u[n]}
  }

  lemma {:induction false} WithoutAt(s: seq<nat>, x: nat, k: nat)
    requires k < |s| && s[k] != x && forall i, j :: 0 <= i < j < |s| ==> s[i] != s[j]
    ensures var m := if x in s[..k] then k - 1 else k;
            m < |Without(s, x)| && Without(s, x)[m] == s[k]
            && forall y :: y in Without(s, x)[..m] <==> y in s[..k] && y != x
  {
    if s[0] == x {
      WithoutFirst(s, k);
    } else if k > 0 {
      WithoutAt(s[1..], x, k - 1);
      hide Without;
      var w := Without(s[1..], x);
      assert Without(s, x) == [s[0]] + w by { WithoutRest(s, x); }
      assert s[..k] == [s[0]] + s[1..][..k - 1];
      var m := if x in s[1..][..k - 1] then k - 2 else k - 1;
      assert Without(s, x)[..m + 1] == [s[0]] + w[..m];
    }
  }

  lemma WithoutRest(s: seq<nat>, x: nat)
    requires s != [] && s[0] != x
    ensures Without(s, x) == [s[0]] + Without(s[1..], x)
  {
  }

  lemma WithoutFirst(s: seq<nat>, k: nat)
    requires 0 < k < |s| && forall i, j :: 0 <= i < j < |s| ==> s[i] != s[j]
    ensures Without(s, s[0]) == s[1..] && s[1..][k - 1] == s[k]
    ensures forall y :: y in s[1..][..k - 1] <==> y in s[..k] && y != s[0]
  {
    Absent(s[1..], s[0]);
    assert s[..k] == [s[0]] + s[1..][..k - 1];
  }

  /** A tag's place in the order of recency is the number of others used since. */
  lemma {:induction false} Place(u: seq<nat>, t: nat)
    requires t in u
    ensures var k, s := |SinceTag(u, t)|, Recency(u);
            k < |s| && s[k] == t && forall y :: y in s[..k] <==> y in SinceTag(u, t)
  {
    var n := |u| - 1;
    if u[n] != t {
      assert u == u[..n] + [u[n]];
      Place(u[..n], t);
      Distinct(u[..n]);
      PlaceMore(Recency(u[..n]), u[n], t, SinceTag(u[..n], t));
      SinceOneMore(u, t);
    }
  }

  // One more use, of x, moves t's place by one unless x was in front of it.
  lemma PlaceMore(s: seq<nat>, x: nat, t: nat, since: set<nat>)
    requires forall i, j :: 0 <= i < j < |s| ==> s[i] != s[j]
    requires |since| < |s| && s[|since|] == t && x != t && forall y :: y in s[..|since|] <==> y in since
    ensures var k := if x in since then |since| else |since| + 1;
            k < |Touch(s, x)| && Touch(s, x)[k] == t && forall y :: y in Touch(s, x)[..k] <==> y in since + {x}
  {
    hide Without;
    WithoutAt(s, x, |since|);
    var m := if x in since then |since| - 1 else |since|;
    assert Touch(s, x)[..m + 1] == [x] + Without(s, x)[..m];
  }

  lemma SinceOneMore(u: seq<nat>, t: nat)
    requires u != [] && u[|u| - 1] != t
    ensures var n := |u| - 1;
            SinceTag(u, t) == SinceTag(u[..n], t) + {u[n]}
            && |SinceTag(u, t)| == |SinceTag(u[..n], t)| + (if u[n] in SinceTag(u[..n], t) then 0 else 1)
  {
    var n := |u| - 1;
    if u[n] in SinceTag(u[..n], t) { assert SinceTag(u[..n], t) + {u[n]} == SinceTag(u[..n], t); }
  }

  function Elements(s: seq<nat>): set<nat> {
    set x | x in s
  }

  lemma {:induction false} DistinctCount(s: seq<nat>)
    requires forall i, j :: 0 <= i < j < |s| ==> s[i] != s[j]
    ensures |Elements(s)| == |s|
  {
    if s != [] {
      DistinctCount(s[1..]);
      assert s == [s[0]] + s[1..];
      assert Elements(s) == Elements(s[1..]) + {s[0]} && s[0] !in s[1..];
    }
  }

  // The block with tag t in set i.
  function Number(t: nat, S: nat, i: nat): nat {
    t * S + i
  }

  // The blocks with these tags in set i.
  function Blocks(tags: set<nat>, S: nat, i: nat): set<nat> {
    set t | t in tags :: Number(t, S, i)
  }

  lemma SameBlock(t: nat, u: nat, S: nat, i: nat)
    requires S > 0 && Number(t, S, i) == Number(u, S, i)
    ensures t == u
  {
  }

  lemma {:induction false} BlocksCount(tags: set<nat>, S: nat, i: nat)
    requires S > 0
    ensures |Blocks(tags, S, i)| == |tags|
    decreases |tags|
  {
    hide Number;
    if tags != {} {
      var t :| t in tags;
      BlocksCount(tags - {t}, S, i);
      BlocksMore(tags - {t}, t, S, i);
      assert tags - {t} + {t} == tags;
      if Number(t, S, i) in Blocks(tags - {t}, S, i) {
        var u :| u in tags - {t} && Number(u, S, i) == Number(t, S, i);
        SameBlock(t, u, S, i);
      }
    }
  }

  lemma BlockIs(b: nat, S: nat)
    requires S > 0
    ensures Number(b / S, S, b % S) == b
  {
  }

  lemma BlocksMore(tags: set<nat>, t: nat, S: nat, i: nat)
    ensures Blocks(tags + {t}, S, i) == Blocks(tags, S, i) + {Number(t, S, i)}
  {
    hide Number;
  }

  // What the last access adds, on both sides.
  lemma SinceMore(g: Geometry, trace: seq<Record>, b: nat)
    requires g.Ok() && trace != []
    ensures var n := |trace| - 1;
            var c := BlockOf(g, trace[n]);
            && Since(g, trace, b) == (if c == b then {} else if c % g.S == b % g.S then Since(g, trace[..n], b) + {c}
                                      else Since(g, trace[..n], b))
            && Ever(g, trace, b) == (if c % g.S == b % g.S then Ever(g, trace[..n], b) + {c}
                                     else Ever(g, trace[..n], b))
  {
  }

  lemma SinceTagMore(v: seq<nat>, x: nat, t: nat)
    ensures SinceTag(v + [x], t) == if x == t then {} else SinceTag(v, t) + {x}
  {
    assert (v + [x])[..|v|] == v;
  }

  lemma OtherSet(g: Geometry, trace: seq<Record>, i: nat)
    requires g.Ok() && trace != [] && BlockOf(g, trace[|trace| - 1]) % g.S != i
    ensures TagsOf(g, trace, i) == TagsOf(g, trace[..|trace| - 1], i)
  {
  }

  lemma {:induction false} TagSide(g: Geometry, trace: seq<Record>, b: nat)
    requires g.Ok()
    ensures var u := TagsOf(g, trace, b % g.S);
            && Since(g, trace, b) == Blocks(SinceTag(u, b / g.S), g.S, b % g.S)
            && Ever(g, trace, b) == Blocks(Elements(u), g.S, b % g.S)
  {
    hide Blocks, Number, SinceTag, TagsOf, Elements, BlockOf;
    var i, t := b % g.S, b / g.S;
    NoBlocks(g.S, i, t);
    if trace == [] {
      NoTags(g, i);
    } else {
      var n := |trace| - 1;
      TagSide(g, trace[..n], b);
      SinceMore(g, trace, b);
      var c := BlockOf(g, trace[n]);
      if c % g.S == i {
        var v := TagsOf(g, trace[..n], i);
        TagMore(g, trace, i);
        BlockIs(c, g.S);
        BlocksMore(Elements(v), c / g.S, g.S, i);
        BlocksMore(SinceTag(v, t), c / g.S, g.S, i);
        SinceTagMore(v, c / g.S, t);
        SameNumber(b, c, g.S);
      } else {
        OtherSet(g, trace, i);
      }
    }
  }

  lemma SameNumber(b: nat, c: nat, S: nat)
    requires S > 0 && b % S == c % S
    ensures b == c <==> b / S == c / S
  {
    BlockIs(b, S);
    BlockIs(c, S);
  }

  lemma NoTags(g: Geometry, i: nat)
    requires g.Ok()
    ensures TagsOf(g, [], i) == []
  {
  }

  lemma NoBlocks(S: nat, i: nat, t: nat)
    ensures Blocks({}, S, i) == {} && Elements([]) == {} && SinceTag([], t) == {}
  {
  }

  lemma TagMore(g: Geometry, trace: seq<Record>, i: nat)
    requires g.Ok() && trace != [] && BlockOf(g, trace[|trace| - 1]) % g.S == i
    ensures var n, t := |trace| - 1, BlockOf(g, trace[|trace| - 1]) / g.S;
            var v := TagsOf(g, trace[..n], i);
            TagsOf(g, trace, i) == v + [t] && (v + [t])[..|v|] == v && Elements(v + [t]) == Elements(v) + {t}
  {
  }

  /** An access hits exactly when its block stays: it has been accessed before, and since then fewer
      than E other blocks of its set; and the set is full exactly when E have been. */
  lemma HitsExactly(g: Geometry, trace: seq<Record>, b: nat)
    requires g.Ok()
    ensures var s := Simulate(g, trace).sets[b % g.S];
            (b / g.S in s <==> Stays(g, trace, b)) && (|s| >= g.E <==> |Ever(g, trace, b)| >= g.E)
  {
    hide Recency, Since, Ever, TagsOf, Simulate, SinceTag;
    var i, t := b % g.S, b / g.S;
    var u := TagsOf(g, trace, i);
    SetsAreLru(g, trace, i);
    TagSide(g, trace, b);
    BlocksCount(SinceTag(u, t), g.S, i);
    BlocksCount(Elements(u), g.S, i);
    RecencyIsLru(u);
    Distinct(u);
    DistinctCount(Recency(u));
    assert Elements(u) == Elements(Recency(u));
    BlockIs(b, g.S);
    InBlocks(Elements(u), t, g.S, i);
    if t in u { Place(u, t); }
    TakenFirst(Recency(u), t, g.E, |SinceTag(u, t)|);
  }

  lemma InBlocks(tags: set<nat>, t: nat, S: nat, i: nat)
    requires S > 0
    ensures Number(t, S, i) in Blocks(tags, S, i) <==> t in tags
  {
    hide Number;
    if Number(t, S, i) in Blocks(tags, S, i) {
      var u :| u in tags && Number(u, S, i) == Number(t, S, i);
      SameBlock(t, u, S, i);
    }
  }

  lemma TakenFirst(s: seq<nat>, t: nat, n: nat, k: nat)
    requires forall i, j :: 0 <= i < j < |s| ==> s[i] != s[j]
    requires t in s ==> k < |s| && s[k] == t
    ensures t in Take(s, n) <==> t in s && k < n
    ensures |Take(s, n)| >= n <==> |s| >= n
  {
  }

  /** The counters of a whole trace, from the blocks alone. */
  lemma {:induction false} CountersExactly(g: Geometry, trace: seq<Record>)
    requires g.Ok()
    ensures var m := Simulate(g, trace); Counters(m.hits, m.misses, m.evictions) == Expected(g, trace)
  {
    if trace != [] {
      hide Stays, Ever, Since, TagsOf, Take, Touch;
      var n := |trace| - 1;
      CountersExactly(g, trace[..n]);
      HitsExactly(g, trace[..n], BlockOf(g, trace[n]));
    }
  }
}
