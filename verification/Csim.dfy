/** csim.c: the cache of the simulator, changed in place line by line. */
module Csim {
  import opened Lru

  datatype Line = Line(valid: bool, tag: nat)

  class LineSet {
    var validNum: nat
    const lines: array<Line>

    // The first validNum lines are the valid ones.
    ghost predicate Valid()
      reads this, lines
    {
      validNum <= lines.Length && forall i :: 0 <= i < lines.Length ==> (lines[i].valid <==> i < validNum)
    }

    ghost function Tags(): (s: seq<nat>)
      requires Valid()
      reads this, lines
      ensures |s| == validNum
    {
      TagsOfLines(lines[..validNum])
    }

    constructor (E: nat)
      ensures Valid() && validNum == 0 && lines.Length == E && fresh(lines)
    {
      validNum := 0;
      lines := new Line[E](_ => Line(false, 0));
    }

    /** The loop that shifts lines 0 to target - 1 up by one, and the new first line. */
    method MoveToFront(target: nat, tag: nat)
      requires target < lines.Length
      modifies lines
      ensures lines[..] == [Line(true, tag)] + old(lines[..target]) + old(lines[target + 1..])
    {
      var i := target;
      while i > 0
        invariant 0 <= i <= target
        invariant forall k :: 0 <= k < i ==> lines[k] == old(lines[k])
        invariant forall k :: i < k <= target ==> lines[k] == old(lines[k - 1])
        invariant forall k :: target < k < lines.Length ==> lines[k] == old(lines[k])
      {
        lines[i] := lines[i - 1];
        i := i - 1;
      }
      lines[0] := Line(true, tag);
    }

    /** The search loop: the line that holds tag, or -1. */
    method Search(tag: nat) returns (target: int)
      requires Valid()
      ensures -1 <= target < validNum
      ensures target == -1 ==> tag !in Tags()
      ensures target != -1 ==> Tags()[target] == tag && tag !in Tags()[..target]
    {
      target := -1;
      var i := 0;
      while i < lines.Length
        invariant 0 <= i <= lines.Length && i <= validNum
        invariant tag !in Tags()[..i]
      {
        if !lines[i].valid {
          break;
        }
        if lines[i].tag == tag {
          target := i;
          break;
        }
        i := i + 1;
      }
    }
  }

  function TagsOfLines(s: seq<Line>): (r: seq<nat>)
    ensures |r| == |s| && forall i :: 0 <= i < |s| ==> r[i] == s[i].tag
  {
    seq(|s|, i requires 0 <= i < |s| => s[i].tag)
  }

  // Removing the one occurrence at k.
  lemma {:induction false} WithoutAt(s: seq<nat>, k: nat, t: nat)
    requires k < |s| && s[k] == t && forall i, j :: 0 <= i < j < |s| ==> s[i] != s[j]
    ensures Without(s, t) == s[..k] + s[k + 1..]
  {
    if k == 0 {
      Absent(s[1..], t);
    } else {
      WithoutAt(s[1..], k - 1, t);
      assert s[..k] == [s[0]] + s[1..][..k - 1];
    }
  }

  // Distinct sets share no lines.
  ghost predicate Apart(sets: seq<LineSet>) {
    forall i, j :: 0 <= i < j < |sets| ==> sets[i] != sets[j] && sets[i].lines != sets[j].lines
  }

  function Objects(sets: seq<LineSet>): set<object> {
    (set i | 0 <= i < |sets| :: sets[i] as object) + (set i | 0 <= i < |sets| :: sets[i].lines as object)
  }

  // The lines of ls hold the tags s, each once, in that order.
  ghost predicate Shows(ls: LineSet, s: seq<nat>, E: nat)
    reads ls, ls.lines
  {
    && ls.lines.Length == E && ls.Valid() && ls.Tags() == s
    && forall j, k :: 0 <= j < k < |s| ==> s[j] != s[k]
  }

  class Cache {
    const g: Geometry
    const sets: seq<LineSet>
    var hits: nat
    var misses: nat
    var evictions: nat
    ghost var sim: Sim               // what the lines and counters amount to

    ghost predicate Valid()
      reads this, Objects(sets)
    {
      && this !in Objects(sets)
      && g.Ok() && |sets| == |sim.sets| == g.S && Apart(sets)
      && hits == sim.hits && misses == sim.misses && evictions == sim.evictions
      && (forall i :: 0 <= i < g.S ==> Shows(sets[i], sim.sets[i], g.E))
    }

    constructor (g0: Geometry)
      requires g0.Ok()
      ensures g == g0 && Valid() && fresh(Objects(sets)) && sim == Fresh(g)
    {
      var made: seq<LineSet> := [];
      while |made| < g0.S
        invariant |made| <= g0.S && Apart(made) && fresh(Objects(made))
        invariant forall i :: 0 <= i < |made| ==>
          made[i].Valid() && made[i].validNum == 0 && made[i].lines.Length == g0.E
        invariant forall i :: 0 <= i < |made| ==> fresh(made[i]) && fresh(made[i].lines)
      {
        var s := new LineSet(g0.E);
        made := made + [s];
      }
      g, sets, hits, misses, evictions, sim := g0, made, 0, 0, 0, Fresh(g0);
    }

    // AccessLine up to the shift: the counters, and the line that makes way.
    method Choose(ls: LineSet, tag: nat, ghost s: seq<nat>) returns (target: nat)
      requires Shows(ls, s, g.E) && g.E > 0
      modifies this`hits, this`misses, this`evictions, ls`validNum
      ensures ls.validNum == if tag in s || |s| == g.E then |s| else |s| + 1
      ensures if tag in s then target < |s| && s[target] == tag else target == if |s| < g.E then |s| else g.E - 1
      ensures hits == old(hits) + if tag in s then 1 else 0
      ensures misses == old(misses) + if tag in s then 0 else 1
      ensures evictions == old(evictions) + if tag in s || |s| < g.E then 0 else 1
    {
      var found := ls.Search(tag);
      if found != -1 {
        hits := hits + 1;
        target := found;
      } else if ls.validNum < g.E {
        misses := misses + 1;
        target := ls.validNum;
        ls.validNum := ls.validNum + 1;
      } else {
        misses := misses + 1;
        evictions := evictions + 1;
        target := g.E - 1;
      }
    }

    /** AccessLine: a hit, a line filled, or the least recently used line replaced. */
    method AccessLine(index: nat, tag: nat)
      requires Valid() && index < g.S
      modifies this`hits, this`misses, this`evictions, this`sim, sets[index], sets[index].lines
      ensures Valid() && sim == Lru.AccessLine(g, old(sim), index, tag)
    {
      hide Take, Touch, TagsOfLines, Lru.AccessLine;
      var ls := sets[index];
      ghost var was, old_lines := sim.sets[index], ls.lines[..];
      assert Shows(ls, was, g.E);
      TagsListed(ls);
      Counts(g, sim, index, tag);
      var target := Choose(ls, tag, was);
      ls.MoveToFront(target, tag);
      sim := Lru.AccessLine(g, sim, index, tag);
      Shifted(was, old_lines, ls.lines[..], target, tag, g.E);
      ListsTags(ls, sim.sets[index]);
      forall i | 0 <= i < g.S && i != index ensures Shows(sets[i], sim.sets[i], g.E) {
        assert old(Shows(sets[i], sim.sets[i], g.E));
        assert sets[i] != ls && sets[i].lines != ls.lines;
      }
    }

    /** AccessMemory, for a parsed record. */
    method AccessMemory(r: Record)
      requires Valid()
      modifies this`hits, this`misses, this`evictions, this`sim, Objects(sets)
      ensures Valid() && sim == Lru.AccessMemory(g, old(sim), r)
    {
      var index := r.address / g.B % g.S;
      var tag := r.address / g.B / g.S;
      AccessLine(index, tag);
      if r.op.Modify? {
        hits := hits + 1;
        sim := sim.(hits := sim.hits + 1);
      }
    }
  }

  // What an access does, field by field.
  lemma Counts(g: Geometry, m: Sim, index: nat, tag: nat)
    requires index < |m.sets|
    ensures var n, s := Lru.AccessLine(g, m, index, tag), m.sets[index];
            && |n.sets| == |m.sets| && n.sets[index] == Take(Touch(s, tag), g.E)
            && (forall i :: 0 <= i < |m.sets| && i != index ==> n.sets[i] == m.sets[i])
            && n.hits == m.hits + (if tag in s then 1 else 0)
            && n.misses == m.misses + (if tag in s then 0 else 1)
            && n.evictions == m.evictions + (if tag in s || |s| < g.E then 0 else 1)
  {
    hide Take, Touch;
  }

  lemma ListsTags(ls: LineSet, s: seq<nat>)
    requires ls.Valid() && |s| == ls.validNum && forall i :: 0 <= i < |s| ==> ls.lines[..][i].tag == s[i]
    ensures ls.Tags() == s
  {
  }

  lemma TagsListed(ls: LineSet)
    requires ls.Valid()
    ensures forall i :: 0 <= i < ls.validNum ==> ls.lines[..][i].tag == ls.Tags()[i]
  {
  }

  // The lines after the shift list the tags as moving to the front would.
  lemma Shifted(s: seq<nat>, lines: seq<Line>, after: seq<Line>, target: nat, tag: nat, E: nat)
    requires |lines| == E && |s| <= E && target < E && 0 < E
    requires forall i :: 0 <= i < E ==> (lines[i].valid <==> i < |s|)
    requires forall i :: 0 <= i < |s| ==> lines[i].tag == s[i]
    requires forall i, j :: 0 <= i < j < |s| ==> s[i] != s[j]
    requires after == [Line(true, tag)] + lines[..target] + lines[target + 1..]
    requires if tag in s then target < |s| && s[target] == tag else target == if |s| < E then |s| else E - 1
    ensures var r := Take(Touch(s, tag), E);
            && |r| == (if tag in s || |s| == E then |s| else |s| + 1)
            && (forall i :: 0 <= i < E ==> (after[i].valid <==> i < |r|))
            && (forall i :: 0 <= i < |r| ==> after[i].tag == r[i])
            && (forall i, j :: 0 <= i < j < |r| ==> r[i] != r[j])
  {
    hide Take, Touch, Without;
    if tag in s { ShiftedHit(s, lines, after, target, tag, E); } else { ShiftedMiss(s, lines, after, target, tag, E); }
  }

  lemma ShiftedHit(s: seq<nat>, lines: seq<Line>, after: seq<Line>, target: nat, tag: nat, E: nat)
    requires |lines| == E && |s| <= E && target < E && 0 < E
    requires forall i :: 0 <= i < E ==> (lines[i].valid <==> i < |s|)
    requires forall i :: 0 <= i < |s| ==> lines[i].tag == s[i]
    requires forall i, j :: 0 <= i < j < |s| ==> s[i] != s[j]
    requires after == [Line(true, tag)] + lines[..target] + lines[target + 1..]
    requires target < |s| && s[target] == tag
    ensures var r := Take(Touch(s, tag), E);
            && |r| == (if tag in s || |s| == E then |s| else |s| + 1)
            && (forall i :: 0 <= i < E ==> (after[i].valid <==> i < |r|))
            && (forall i :: 0 <= i < |r| ==> after[i].tag == r[i])
            && (forall i, j :: 0 <= i < j < |r| ==> r[i] != r[j])
  {
    hide Without;
    WithoutAt(s, target, tag);
    var r := [tag] + s[..target] + s[target + 1..];
    assert Touch(s, tag) == r;
    forall i | 0 <= i < |r| ensures after[i].tag == r[i] {
      if 0 < i <= target { assert after[i] == lines[i - 1]; }
    }
    forall i, j | 0 <= i < j < |r| ensures r[i] != r[j] {
      assert r[j] == if j <= target then s[j - 1] else s[j];
      if i > 0 { assert r[i] == if i <= target then s[i - 1] else s[i]; }
    }
  }

  lemma ShiftedMiss(s: seq<nat>, lines: seq<Line>, after: seq<Line>, target: nat, tag: nat, E: nat)
    requires tag !in s
    requires |lines| == E && |s| <= E && target < E && 0 < E
    requires forall i :: 0 <= i < E ==> (lines[i].valid <==> i < |s|)
    requires forall i :: 0 <= i < |s| ==> lines[i].tag == s[i]
    requires forall i, j :: 0 <= i < j < |s| ==> s[i] != s[j]
    requires after == [Line(true, tag)] + lines[..target] + lines[target + 1..]
    requires target == if |s| < E then |s| else E - 1
    ensures var r := Take(Touch(s, tag), E);
            && |r| == (if tag in s || |s| == E then |s| else |s| + 1)
            && (forall i :: 0 <= i < E ==> (after[i].valid <==> i < |r|))
            && (forall i :: 0 <= i < |r| ==> after[i].tag == r[i])
            && (forall i, j :: 0 <= i < j < |r| ==> r[i] != r[j])
  {
    hide Without;
    Absent(s, tag);
    TouchSize(s, tag, E);
    var r := Take([tag] + s, E);
    forall i | 0 < i < |r| ensures r[i] == s[i - 1] && after[i] == lines[i - 1] {
    }
  }
}
