/** The heap of mm.c as a list of blocks, and what coalescing, placing and extending do to it. */
module Blocks {
  const WSIZE := 4
  const DSIZE := 8
  const OVERHEAD := 8
  const CHUNKSIZE := 4096
  const BASE := 8                  // heap_listp: the prologue's block pointer

  /** bp is the payload's address; size counts header, payload and footer. */
  datatype Blk = Blk(bp: nat, size: nat, alloc: bool)

  // PACK
  function Pack(size: nat, alloc: bool): nat {
    size + if alloc then 1 else 0
  }

  /** Prologue, blocks of at least 8 bytes in multiples of 8, each starting where the one before
      ends, and the epilogue. */
  ghost predicate Tiles(b: seq<Blk>) {
    && |b| >= 2 && b[0] == Blk(BASE, OVERHEAD, true)
    && b[|b| - 1].size == 0 && b[|b| - 1].alloc
    && (forall k :: 0 <= k < |b| - 1 ==> b[k].size >= 8 && b[k].size % 8 == 0)
    && (forall k, l :: 0 <= k && l == k + 1 && l < |b| ==> b[l].bp == b[k].bp + b[k].size)
  }

  // No two adjacent free blocks.
  ghost predicate Settled(b: seq<Blk>) {
    forall k, l :: 0 <= k && l == k + 1 && l < |b| ==> b[k].alloc || b[l].alloc
  }

  lemma {:induction false} InOrder(b: seq<Blk>, k: nat, l: nat)
    requires Tiles(b) && k < l < |b|
    ensures b[k].bp + b[k].size <= b[l].bp
    decreases l
  {
    if k < l - 1 { InOrder(b, k, l - 1); }
  }

  lemma {:induction false} Aligned(b: seq<Blk>, k: nat)
    requires Tiles(b) && k < |b|
    ensures b[k].bp % 8 == 0 && b[k].bp >= BASE
  {
    if k > 0 {
      Aligned(b, k - 1);
      var prev := b[k - 1];
      assert b[k].bp == prev.bp + prev.size;
    }
  }

  lemma OneStart(b: seq<Blk>, k: nat, l: nat)
    requires Tiles(b) && k < |b| && l < |b| && b[k].bp == b[l].bp
    ensures k == l
  {
    if k < l { InOrder(b, k, l); } else if l < k { InOrder(b, l, k); }
  }

  // ---- the operations ----

  // Blocks i up to j become one free block.
  function Merge(b: seq<Blk>, i: nat, j: nat): seq<Blk>
    requires i < j < |b| && b[i].bp <= b[j].bp
  {
    b[..i] + [Blk(b[i].bp, b[j].bp - b[i].bp, false)] + b[j..]
  }

  function Lo(b: seq<Blk>, k: nat): nat
    requires 0 < k < |b|
  {
    if b[k - 1].alloc then k else k - 1
  }

  function Hi(b: seq<Blk>, k: nat): nat
    requires k + 1 < |b|
  {
    if b[k + 1].alloc then k + 1 else k + 2
  }

  /** The free block k joined with its free neighbours. */
  ghost function Coalesced(b: seq<Blk>, k: nat): seq<Blk>
    requires Tiles(b) && 0 < k < |b| - 1
  {
    Spans(b, k);
    Merge(b, Lo(b, k), Hi(b, k))
  }

  lemma Spans(b: seq<Blk>, k: nat)
    requires Tiles(b) && 0 < k < |b| - 1
    ensures 0 < Lo(b, k) <= k < Hi(b, k) < |b| && b[Lo(b, k)].bp <= b[k].bp < b[Hi(b, k)].bp
    ensures b[Hi(b, k)].bp - b[Lo(b, k)].bp ==
            (if b[k - 1].alloc then 0 else b[k - 1].size) + b[k].size + (if b[k + 1].alloc then 0 else b[k + 1].size)
  {
    var prev, here, next := b[k - 1], b[k], b[k + 1];
    assert here.bp == prev.bp + prev.size && next.bp == here.bp + here.size;
    if !next.alloc { assert b[k + 2].bp == next.bp + next.size; }
  }

  /** Block k turned into an allocated one, and what is left over if it can be a block. */
  function Placed(b: seq<Blk>, k: nat, asize: nat): seq<Blk>
    requires k < |b|
  {
    var x := b[k];
    b[..k] +
    (if x.size >= asize + OVERHEAD then [Blk(x.bp, asize, true), Blk(x.bp + asize, x.size - asize, false)]
     else [Blk(x.bp, x.size, true)]) +
    b[k + 1..]
  }

  function Freed(b: seq<Blk>, k: nat): seq<Blk>
    requires k < |b|
  {
    b[k := b[k].(alloc := false)]
  }

  /** The epilogue becomes the header of a free block and moves up. */
  function Extended(b: seq<Blk>, size: nat): seq<Blk>
    requires |b| > 0
  {
    var e := b[|b| - 1].bp;
    b[..|b| - 1] + [Blk(e, size, false), Blk(e + size, 0, true)]
  }

  // ---- what they keep ----

  // Settled, but for the free block k.
  ghost predicate SettledBut(b: seq<Blk>, k: nat) {
    forall i, j :: 0 <= i && j == i + 1 && j < |b| && i != k && j != k ==> b[i].alloc || b[j].alloc
  }

  lemma MergedAt(b: seq<Blk>, i: nat, j: nat, x: nat)
    requires i < j < |b| && b[i].bp <= b[j].bp && x < |Merge(b, i, j)|
    ensures var c := Merge(b, i, j);
            && |c| == |b| + 1 + i - j
            && c[x] == if x < i then b[x] else if x == i then Blk(b[i].bp, b[j].bp - b[i].bp, false)
                else b[x - i - 1 + j]
  {
  }

  lemma Positions(b: seq<Blk>, i: nat, j: nat)
    requires Tiles(b) && 0 < i < j < |b|
    ensures b[j].bp >= b[i].bp + 8 && (b[j].bp - b[i].bp) % 8 == 0 && b[i].bp == b[i - 1].bp + b[i - 1].size
  {
    InOrder(b, i, j);
    Aligned(b, i);
    Aligned(b, j);
    var prev, here := b[i - 1], b[i];
    assert here.bp == prev.bp + prev.size && here.size >= 8;
  }

  lemma MergeTiles(b: seq<Blk>, i: nat, j: nat)
    requires Tiles(b) && 0 < i < j < |b|
    ensures b[i].bp < b[j].bp && Tiles(Merge(b, i, j))
  {
    Positions(b, i, j);
    var c := Merge(b, i, j);
    assert |c| == |b| + 1 + i - j;
    hide Merge;
    MergedAt(b, i, j, 0);
    MergedAt(b, i, j, |c| - 1);
    forall x | 0 <= x < |c| - 1 ensures c[x].size >= 8 && c[x].size % 8 == 0 { MergedAt(b, i, j, x); }
    forall x, y | 0 <= x && y == x + 1 && y < |c| ensures c[y].bp == c[x].bp + c[x].size {
      MergedAt(b, i, j, x);
      MergedAt(b, i, j, y);
    }
  }

  // The blocks on either side of what is merged are allocated.
  lemma Flanks(b: seq<Blk>, k: nat)
    requires Tiles(b) && 0 < k < |b| - 1 && SettledBut(b, k)
    ensures 0 < Lo(b, k) <= k < Hi(b, k) < |b| && b[Lo(b, k) - 1].alloc && b[Hi(b, k)].alloc
  {
    Spans(b, k);
    var i, j := Lo(b, k), Hi(b, k);
    if i == k - 1 { assert b[i].alloc || b[i - 1].alloc; }
    if j == k + 2 { assert b[k + 1].alloc || b[j].alloc; }
  }

  lemma CoalescedFits(b: seq<Blk>, k: nat)
    requires Tiles(b) && 0 < k < |b| - 1 && SettledBut(b, k)
    ensures Tiles(Coalesced(b, k)) && Settled(Coalesced(b, k))
  {
    Spans(b, k);
    Flanks(b, k);
    var i, j := Lo(b, k), Hi(b, k);
    MergeTiles(b, i, j);
    var c := Coalesced(b, k);
    assert c == Merge(b, i, j);
    hide Tiles, Merge, Coalesced, Lo, Hi;
    forall x, y | 0 <= x && y == x + 1 && y < |c| ensures c[x].alloc || c[y].alloc {
      MergedAt(b, i, j, x);
      MergedAt(b, i, j, y);
    }
  }

  lemma PlacedSize(b: seq<Blk>, k: nat, asize: nat)
    requires k < |b|
    ensures |Placed(b, k, asize)| == |b| + if b[k].size >= asize + OVERHEAD then 1 else 0
  {
  }

  lemma PlacedAt(b: seq<Blk>, k: nat, asize: nat, x: nat)
    requires k < |b| && x < |Placed(b, k, asize)|
    ensures var c, d := Placed(b, k, asize), |Placed(b, k, asize)| - |b|;
            && d == (if b[k].size >= asize + OVERHEAD then 1 else 0)
            && c[x] == if x < k then b[x] else if x > k + d then b[x - d]
                       else if d == 0 then Blk(b[k].bp, b[k].size, true)
                       else if x == k then Blk(b[k].bp, asize, true)
                       else Blk(b[k].bp + asize, b[k].size - asize, false)
  {
  }

  lemma PlacedFits(b: seq<Blk>, k: nat, asize: nat)
    requires Tiles(b) && Settled(b) && 0 < k < |b| - 1 && !b[k].alloc
    requires asize % 8 == 0 && 8 <= asize <= b[k].size
    ensures Tiles(Placed(b, k, asize)) && Settled(Placed(b, k, asize))
  {
    hide Placed;
    var prev, here, next := b[k - 1], b[k], b[k + 1];
    assert here.bp == prev.bp + prev.size && next.bp == here.bp + here.size && next.alloc && prev.alloc;
    var c := Placed(b, k, asize);
    PlacedSize(b, k, asize);
    PlacedAt(b, k, asize, 0);
    PlacedAt(b, k, asize, |c| - 1);
    forall x, y | 0 <= x && y == x + 1 && y < |c| ensures c[y].bp == c[x].bp + c[x].size && (c[x].alloc || c[y].alloc) {
      PlacedAt(b, k, asize, x);
      PlacedAt(b, k, asize, y);
    }
    forall x | 0 <= x < |c| - 1 ensures c[x].size >= 8 && c[x].size % 8 == 0 {
      PlacedAt(b, k, asize, x);
    }
  }

  lemma FreedFits(b: seq<Blk>, k: nat)
    requires Tiles(b) && Settled(b) && 0 < k < |b| - 1
    ensures Tiles(Freed(b, k)) && SettledBut(Freed(b, k), k)
  {
  }

  lemma ExtendedFits(b: seq<Blk>, size: nat)
    requires Tiles(b) && Settled(b) && size >= 8 && size % 8 == 0
    ensures Tiles(Extended(b, size)) && SettledBut(Extended(b, size), |b| - 1)
  {
    var n := |b| - 1;
    var prev := b[n - 1];
    assert b[n].bp == prev.bp + prev.size;
  }

  /** Every block's extent, header to footer, is apart from every other's: so are the payloads. */
  lemma ExtentsApart(b: seq<Blk>, k: nat, l: nat)
    requires Tiles(b) && k < |b| && l < |b| && k != l
    ensures b[k].bp + b[k].size - WSIZE <= b[l].bp - WSIZE || b[l].bp + b[l].size - WSIZE <= b[k].bp - WSIZE
  {
    if k < l { InOrder(b, k, l); } else { InOrder(b, l, k); }
  }
}
