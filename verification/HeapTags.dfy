/** Boundary tags: how the blocks of a heap lie in memory, and what the allocated ones hold. */
module HeapTags {
  import opened Memlib
  import opened Blocks

  // Header and footer of x are equal and say its size and whether it is allocated; the epilogue
  // has only a header.
  predicate TagsAt(m: seq<byte>, x: Blk) {
    && WSIZE <= x.bp <= |m| && Word(m, x.bp - WSIZE) == Pack(x.size, x.alloc)
    && (x.size >= 8 ==> x.bp + x.size - WSIZE <= |m| && Word(m, x.bp + x.size - DSIZE) == Pack(x.size, x.alloc))
  }

  predicate Tagged(m: seq<byte>, b: seq<Blk>) {
    forall k :: 0 <= k < |b| ==> TagsAt(m, b[k])
  }

  function End(x: Blk): nat {
    if x.size < 8 then x.bp else x.bp + x.size - WSIZE
  }

  lemma TagsKept(m: seq<byte>, n: seq<byte>, x: Blk, lo: int, hi: int)
    requires TagsAt(m, x) && Same(m, n, lo, hi) && (End(x) <= lo || hi <= x.bp - WSIZE)
    ensures TagsAt(n, x)
  {
    SameWord(m, n, lo, hi, x.bp - WSIZE);
    if x.size >= 8 { SameWord(m, n, lo, hi, x.bp + x.size - DSIZE); }
  }

  // The blocks from i up to j replaced by mid.
  function Splice(b: seq<Blk>, i: nat, j: nat, mid: seq<Blk>): seq<Blk>
    requires i <= j <= |b|
  {
    b[..i] + mid + b[j..]
  }

  /** Rewriting the bytes of blocks i up to j leaves the tags of all others alone. */
  lemma SpliceTagged(m: seq<byte>, n: seq<byte>, b: seq<Blk>, i: nat, j: nat, mid: seq<Blk>)
    requires Tiles(b) && Tagged(m, b) && i < j < |b|
    requires Same(m, n, b[i].bp - WSIZE, b[j].bp - WSIZE) && Tagged(n, mid)
    ensures Tagged(n, Splice(b, i, j, mid))
  {
    hide Tiles, TagsAt;
    forall k | 0 <= k < |b| && (k < i || k >= j) ensures TagsAt(n, b[k]) {
      KeepsOther(m, n, b, i, j, k);
    }
    var c := Splice(b, i, j, mid);
    forall k | 0 <= k < |c| ensures TagsAt(n, c[k]) {
      if k >= i + |mid| { assert c[k] == b[k - i - |mid| + j]; }
    }
  }

  lemma KeepsOther(m: seq<byte>, n: seq<byte>, b: seq<Blk>, i: nat, j: nat, k: nat)
    requires Tiles(b) && i < j < |b| && k < |b| && (k < i || k >= j) && TagsAt(m, b[k])
    requires Same(m, n, b[i].bp - WSIZE, b[j].bp - WSIZE)
    ensures TagsAt(n, b[k])
  {
    Outside(b, i, j, k);
    TagsKept(m, n, b[k], b[i].bp - WSIZE, b[j].bp - WSIZE);
  }

  lemma Outside(b: seq<Blk>, i: nat, j: nat, k: nat)
    requires Tiles(b) && i < j < |b| && k < |b| && (k < i || k >= j)
    ensures End(b[k]) <= b[i].bp - WSIZE || b[j].bp <= b[k].bp
  {
    if k < i { InOrder(b, k, i); assert b[k].size >= 8; } else if k > j { InOrder(b, j, k); }
  }

  // ---- what is allocated ----

  function One(m: seq<byte>, x: Blk): map<nat, seq<byte>> {
    if x.alloc && x.size >= 8 && x.bp + x.size - OVERHEAD <= |m|
      then map[x.bp := m[x.bp..x.bp + x.size - OVERHEAD]] else map[]
  }

  /** The allocated blocks among b, as a map from payload address to payload. */
  function Live(m: seq<byte>, b: seq<Blk>): map<nat, seq<byte>> {
    if b == [] then map[] else Live(m, b[..|b| - 1]) + One(m, b[|b| - 1])
  }

  // Without the prologue and the epilogue.
  function LiveOf(m: seq<byte>, b: seq<Blk>): map<nat, seq<byte>>
    requires |b| >= 2
  {
    Live(m, b[1..|b| - 1])
  }

  lemma Joined(x: map<nat, seq<byte>>, y: map<nat, seq<byte>>, z: map<nat, seq<byte>>)
    ensures (x + y) + z == x + (y + z)
  {
  }

  lemma {:induction false} LiveConcat(m: seq<byte>, a: seq<Blk>, b: seq<Blk>)
    ensures Live(m, a + b) == Live(m, a) + Live(m, b)
  {
    hide One;
    if b == [] {
      assert a + b == a;
      assert Live(m, a) + map[] == Live(m, a);
    } else {
      var n := |b| - 1;
      assert (a + b)[..|a + b| - 1] == a + b[..n] && (a + b)[|a + b| - 1] == b[n];
      LiveConcat(m, a, b[..n]);
      Joined(Live(m, a), Live(m, b[..n]), One(m, b[n]));
    }
  }

  lemma {:induction false} LiveSame(m: seq<byte>, n: seq<byte>, b: seq<Blk>, lo: int, hi: int)
    requires Same(m, n, lo, hi)
    requires forall k :: 0 <= k < |b| ==> End(b[k]) <= lo || hi <= b[k].bp
    ensures Live(n, b) == Live(m, b)
  {
    if b != [] {
      var x := b[|b| - 1];
      LiveSame(m, n, b[..|b| - 1], lo, hi);
      if x.alloc && x.size >= 8 && x.bp + x.size - OVERHEAD <= |m| {
        assert m[x.bp..x.bp + x.size - OVERHEAD] == n[x.bp..x.bp + x.size - OVERHEAD];
      }
    }
  }

  lemma {:induction false} NothingLive(m: seq<byte>, b: seq<Blk>)
    requires forall k :: 0 <= k < |b| ==> !b[k].alloc || b[k].size < 8
    ensures Live(m, b) == map[]
  {
    if b != [] { NothingLive(m, b[..|b| - 1]); }
  }

  /** What is live is the payload of an allocated block, and conversely. */
  lemma {:induction false} LiveIs(m: seq<byte>, b: seq<Blk>, p: nat)
    requires forall k, l :: 0 <= k < |b| && 0 <= l < |b| && b[k].bp == b[l].bp ==> k == l
    ensures p in Live(m, b) <==>
              exists k :: 0 <= k < |b| && b[k].bp == p && One(m, b[k]) != map[]
    ensures forall k :: 0 <= k < |b| && b[k].bp == p && One(m, b[k]) != map[] ==>
              p in Live(m, b) && Live(m, b)[p] == m[p..p + b[k].size - OVERHEAD]
  {
    if b != [] {
      var n := |b| - 1;
      LiveIs(m, b[..n], p);
      forall k | 0 <= k < |b| && b[k].bp == p && One(m, b[k]) != map[]
        ensures p in Live(m, b) && Live(m, b)[p] == m[p..p + b[k].size - OVERHEAD]
      {
        if k < n { assert b[..n][k] == b[k] && b[n].bp != p; }
      }
      if p in Live(m, b) && p !in One(m, b[n]) {
        var k :| 0 <= k < n && b[..n][k].bp == p && One(m, b[..n][k]) != map[];
        assert b[k] == b[..n][k];
      }
    }
  }

  // Blocks on either side of i up to j hold what they held.
  lemma SidesSame(m: seq<byte>, n: seq<byte>, b: seq<Blk>, i: nat, j: nat)
    requires Tiles(b) && 0 < i < j < |b| && Same(m, n, b[i].bp - WSIZE, b[j].bp - WSIZE)
    ensures Live(n, b[1..i]) == Live(m, b[1..i]) && Live(n, b[j..|b| - 1]) == Live(m, b[j..|b| - 1])
  {
    hide Tiles, Live, Same;
    forall k | 0 <= k < |b| && (k < i || k >= j) ensures End(b[k]) <= b[i].bp - WSIZE || b[j].bp - WSIZE <= b[k].bp {
      Outside(b, i, j, k);
    }
    LiveSame(m, n, b[1..i], b[i].bp - WSIZE, b[j].bp - WSIZE);
    LiveSame(m, n, b[j..|b| - 1], b[i].bp - WSIZE, b[j].bp - WSIZE);
  }

  lemma SpliceIs(b: seq<Blk>, i: nat, j: nat, mid: seq<Blk>)
    requires 0 < i < j < |b|
    ensures var c := Splice(b, i, j, mid); |c| >= 2 && c[1..|c| - 1] == b[1..i] + mid + b[j..|b| - 1]
    ensures b[1..|b| - 1] == b[1..i] + b[i..j] + b[j..|b| - 1]
  {
  }

  /** Blocks i up to j rewritten: what the others hold is untouched. */
  lemma SpliceLive(m: seq<byte>, n: seq<byte>, b: seq<Blk>, i: nat, j: nat, mid: seq<Blk>)
    requires Tiles(b) && 0 < i < j < |b| && Same(m, n, b[i].bp - WSIZE, b[j].bp - WSIZE)
    ensures |Splice(b, i, j, mid)| >= 2
    ensures LiveOf(m, b) == Live(m, b[1..i]) + Live(m, b[i..j]) + Live(m, b[j..|b| - 1])
    ensures LiveOf(n, Splice(b, i, j, mid)) == Live(m, b[1..i]) + Live(n, mid) + Live(m, b[j..|b| - 1])
  {
    hide Tiles, Live, Same, Splice;
    SpliceIs(b, i, j, mid);
    SidesSame(m, n, b, i, j);
    Three(m, b[1..i], b[i..j], b[j..|b| - 1]);
    Three(n, b[1..i], mid, b[j..|b| - 1]);
  }

  lemma Three(m: seq<byte>, a: seq<Blk>, b: seq<Blk>, c: seq<Blk>)
    ensures Live(m, a + b + c) == Live(m, a) + Live(m, b) + Live(m, c)
  {
    LiveConcat(m, a + b, c);
    LiveConcat(m, a, b);
  }

  // Merging free blocks, with the bytes outside them untouched, changes nothing that is live.
  lemma MergeLive(m: seq<byte>, n: seq<byte>, b: seq<Blk>, i: nat, j: nat)
    requires Tiles(b) && 0 < i < j < |b| && Same(m, n, b[i].bp - WSIZE, b[j].bp - WSIZE) && b[i].bp <= b[j].bp
    requires forall k :: i <= k < j ==> !b[k].alloc
    ensures |Merge(b, i, j)| >= 2 && LiveOf(n, Merge(b, i, j)) == LiveOf(m, b)
  {
    hide Tiles;
    var mid := [Blk(b[i].bp, b[j].bp - b[i].bp, false)];
    assert Merge(b, i, j) == Splice(b, i, j, mid);
    SpliceLive(m, n, b, i, j, mid);
    NothingLive(n, mid);
    NothingLive(m, b[i..j]);
  }

  lemma {:induction false} NotStart(m: seq<byte>, b: seq<Blk>, p: nat)
    requires forall k :: 0 <= k < |b| ==> b[k].bp != p
    ensures p !in Live(m, b)
  {
    if b != [] { NotStart(m, b[..|b| - 1], p); }
  }

  lemma LiveOne(m: seq<byte>, x: Blk)
    ensures Live(m, [x]) == One(m, x)
  {
    assert [x][..0] == [];
    assert Live(m, []) == map[];
  }

  // Block k rewritten as an allocated block at the same address, and perhaps a free rest.
  lemma LiveUpdate(m: seq<byte>, n: seq<byte>, b: seq<Blk>, k: nat, x: Blk, rest: seq<Blk>)
    requires Tiles(b) && 0 < k < |b| - 1 && Same(m, n, b[k].bp - WSIZE, b[k + 1].bp - WSIZE)
    requires x.bp == b[k].bp && x.alloc && x.size >= 8 && x.bp + x.size - OVERHEAD <= |m|
    requires forall j :: 0 <= j < |rest| ==> !rest[j].alloc
    ensures LiveOf(n, Splice(b, k, k + 1, [x] + rest)) == LiveOf(m, b)[x.bp := n[x.bp..x.bp + x.size - OVERHEAD]]
  {
    hide Tiles, Live, LiveOf;
    SpliceLive(m, n, b, k, k + 1, [x] + rest);
    LiveConcat(n, [x], rest);
    LiveOne(n, x);
    NothingLive(n, rest);
    assert b[k..k + 1] == [b[k]];
    LiveOne(m, b[k]);
    LaterStarts(b, k);
    NotStart(m, b[k + 1..|b| - 1], x.bp);
  }

  // Block k freed.
  lemma LiveRemove(m: seq<byte>, n: seq<byte>, b: seq<Blk>, k: nat, x: Blk)
    requires Tiles(b) && 0 < k < |b| - 1 && Same(m, n, b[k].bp - WSIZE, b[k + 1].bp - WSIZE) && !x.alloc
    ensures LiveOf(n, Splice(b, k, k + 1, [x])) == LiveOf(m, b) - {b[k].bp}
  {
    hide Tiles, Live, LiveOf;
    SpliceLive(m, n, b, k, k + 1, [x]);
    NothingLive(n, [x]);
    assert b[k..k + 1] == [b[k]];
    LiveOne(m, b[k]);
    LaterStarts(b, k);
    NotStart(m, b[k + 1..|b| - 1], b[k].bp);
    NotStart(m, b[1..k], b[k].bp);
  }

  lemma LaterStarts(b: seq<Blk>, k: nat)
    requires Tiles(b) && k < |b|
    ensures forall j :: 0 <= j < |b| && j != k ==> b[j].bp != b[k].bp
  {
    forall j | 0 <= j < |b| && j != k ensures b[j].bp != b[k].bp {
      if j < k { InOrder(b, j, k); } else { InOrder(b, k, j); }
    }
  }

  lemma InnerStarts(b: seq<Blk>)
    requires Tiles(b)
    ensures var c := b[1..|b| - 1];
            forall i, j :: 0 <= i < |c| && 0 <= j < |c| && c[i].bp == c[j].bp ==> i == j
  {
    var c := b[1..|b| - 1];
    forall i, j | 0 <= i < |c| && 0 <= j < |c| && c[i].bp == c[j].bp ensures i == j { OneStart(b, i + 1, j + 1); }
  }

  lemma OneIs(m: seq<byte>, x: Blk)
    requires One(m, x) != map[]
    ensures x.alloc && x.size >= 8 && x.bp + x.size - OVERHEAD <= |m|
  {
  }

  lemma LiveAt(m: seq<byte>, c: seq<Blk>, p: nat) returns (i: nat)
    requires forall k, l :: 0 <= k < |c| && 0 <= l < |c| && c[k].bp == c[l].bp ==> k == l
    requires p in Live(m, c)
    ensures i < |c| && c[i].bp == p && c[i].alloc && c[i].size >= 8 && p + c[i].size - OVERHEAD <= |m|
    ensures Live(m, c)[p] == m[p..p + c[i].size - OVERHEAD]
  {
    hide Live, One;
    LiveIs(m, c, p);
    i :| 0 <= i < |c| && c[i].bp == p && One(m, c[i]) != map[];
    OneIs(m, c[i]);
  }

  /** Every live payload is that of one allocated block between the prologue and the epilogue. */
  lemma LiveIndex(m: seq<byte>, b: seq<Blk>, p: nat) returns (k: nat)
    requires Tiles(b) && p in LiveOf(m, b)
    ensures 0 < k < |b| - 1 && b[k].bp == p && b[k].alloc && b[k].size >= 8 && p + b[k].size - OVERHEAD <= |m|
    ensures LiveOf(m, b)[p] == m[p..p + b[k].size - OVERHEAD]
  {
    InnerStarts(b);
    hide Tiles, Live;
    var i := LiveAt(m, b[1..|b| - 1], p);
    k := i + 1;
  }
}
