/** mm.c: an allocator with boundary tags and next fit, over memlib's array. */
module Malloc {
  import opened Memlib
  import opened Blocks
  import opened HeapTags

  // What find_fit accepts.
  predicate Suits(x: Blk, asize: nat) {
    (x.size == asize || x.size >= asize + OVERHEAD) && !x.alloc
  }

  lemma Unpack(size: nat, alloc: bool)
    requires size % 8 == 0
    ensures Pack(size, alloc) / 8 * 8 == size && (Pack(size, alloc) % 2 == 1 <==> alloc)
  {
  }

  lemma PackFits(size: nat, alloc: bool)
    requires size < 0x8000_0000
    ensures Pack(size, alloc) < WORD
  {
  }

  /** What the macros read at a block and at the one after it. */
  lemma ReadsTags(m: seq<byte>, b: seq<Blk>, k: nat)
    requires Tiles(b) && Tagged(m, b) && k < |b|
    ensures BASE <= b[k].bp <= |m| && b[k].size % 8 == 0 && b[k].bp % 8 == 0 && TagsAt(m, b[k])
    ensures Word(m, b[k].bp - WSIZE) / 8 * 8 == b[k].size && (Word(m, b[k].bp - WSIZE) % 2 == 1 <==> b[k].alloc)
    ensures k + 1 < |b| ==> b[k].size >= 8 && b[k + 1].bp == b[k].bp + b[k].size && b[k + 1].bp <= |m|
                            && Word(m, b[k + 1].bp - DSIZE) == Word(m, b[k].bp - WSIZE)
  {
    hide Word;
    Aligned(b, k);
    Unpack(b[k].size, b[k].alloc);
    assert TagsAt(m, b[k]);
    if k + 1 < |b| {
      var next := b[k + 1];
      assert next.bp == b[k].bp + b[k].size && TagsAt(m, next);
    }
  }

  // Two words written one after the other are both there, and nothing outside them has changed.
  lemma TwoPuts(m: seq<byte>, m1: seq<byte>, m2: seq<byte>, p: nat, q: nat)
    requires Same(m, m1, p, p + 4) && Same(m1, m2, q, q + 4) && p + 4 <= |m|
    requires q + 4 <= |m| && (p + 4 <= q || q + 4 <= p)
    ensures Word(m2, p) == Word(m1, p)
    ensures p < q ==> Same(m, m2, p, q + 4)
    ensures q < p ==> Same(m, m2, q, p + 4)
  {
  }

  lemma TagsFromWords(m: seq<byte>, bp: nat, size: nat)
    requires WSIZE <= bp && size >= 8 && bp + size - WSIZE <= |m|
    requires Word(m, bp - WSIZE) == Pack(size, false) == Word(m, bp + size - DSIZE)
    ensures TagsAt(m, Blk(bp, size, false))
  {
  }

  /** Coalescing: the merged block's own tags, and no byte outside it, are all that has to be
      written. */
  lemma CoalescedKept(m: seq<byte>, n: seq<byte>, b: seq<Blk>, k: nat)
    requires Tiles(b) && Tagged(m, b) && 0 < k < |b| - 1 && !b[k].alloc
    requires 0 < Lo(b, k) < Hi(b, k) < |b| && b[Lo(b, k)].bp <= b[Hi(b, k)].bp
    requires Same(m, n, b[Lo(b, k)].bp - WSIZE, b[Hi(b, k)].bp - WSIZE)
    requires TagsAt(n, Blk(b[Lo(b, k)].bp, b[Hi(b, k)].bp - b[Lo(b, k)].bp, false))
    ensures Tagged(n, Coalesced(b, k)) && |Coalesced(b, k)| >= 2 && LiveOf(n, Coalesced(b, k)) == LiveOf(m, b)
  {
    hide Tiles, Tagged, TagsAt, LiveOf;
    var i, j := Lo(b, k), Hi(b, k);
    var mid := [Blk(b[i].bp, b[j].bp - b[i].bp, false)];
    assert Tagged(n, mid) by { OneTagged(n, mid[0]); }
    SpliceTagged(m, n, b, i, j, mid);
    assert Merge(b, i, j) == Splice(b, i, j, mid);
    MergeLive(m, n, b, i, j);
  }

  lemma OneTagged(m: seq<byte>, x: Blk)
    requires TagsAt(m, x)
    ensures Tagged(m, [x])
  {
  }

  /** Blocks tile the heap from the prologue to the epilogue at the break, and their boundary tags
      say so. */
  ghost predicate Sound(m: seq<byte>, b: seq<Blk>, brk: nat) {
    |b| >= 2 && |m| < 0x8000_0000 && brk <= |m| && Tiles(b) && Tagged(m, b) && b[|b| - 1].bp == brk
  }

  // p is the start of a block before the epilogue.
  predicate Starts(b: seq<Blk>, p: nat) {
    exists k :: 0 <= k < |b| - 1 && b[k].bp == p
  }

  class Heap {
    const mem: Memory
    var heapListp: nat
    var preListp: nat
    ghost var b: seq<Blk>            // the blocks, in address order

    ghost predicate Valid()
      reads this, mem, mem.bytes
    {
      Sound(mem.bytes[..], b, mem.brk) && Settled(b) && Starts(b, preListp) && heapListp == BASE
    }

    /** The allocated payloads by address. */
    ghost function Payloads(): map<nat, seq<byte>>
      requires |b| >= 2
      reads this, mem, mem.bytes
    {
      LiveOf(mem.bytes[..], b)
    }

    // GET_SIZE and GET_ALLOC of the word at p.
    function SizeAt(p: nat): nat
      requires p + 4 <= mem.bytes.Length
      reads mem.bytes
    {
      mem.Get(p) / 8 * 8
    }

    function AllocAt(p: nat): bool
      requires p + 4 <= mem.bytes.Length
      reads mem.bytes
    {
      mem.Get(p) % 2 == 1
    }

    // NEXT_BLKP, PREV_BLKP and FTRP
    function NextBlk(bp: nat): nat
      requires 4 <= bp <= mem.bytes.Length
      reads mem.bytes
    {
      bp + SizeAt(bp - WSIZE)
    }

    function PrevBlk(bp: nat): int
      requires 8 <= bp <= mem.bytes.Length
      reads mem.bytes
    {
      bp - SizeAt(bp - DSIZE)
    }

    function Footer(bp: nat): int
      requires 4 <= bp <= mem.bytes.Length
      reads mem.bytes
    {
      bp + SizeAt(bp - WSIZE) - DSIZE
    }

    /** The macros read the block list. */
    lemma Reads(k: nat)
      requires Tiles(b) && Tagged(mem.bytes[..], b) && k < |b|
      ensures 8 <= b[k].bp <= mem.bytes.Length && b[k].size % 8 == 0 && b[k].bp % 8 == 0
      ensures SizeAt(b[k].bp - WSIZE) == b[k].size && AllocAt(b[k].bp - WSIZE) == b[k].alloc
      ensures NextBlk(b[k].bp) == b[k].bp + b[k].size && Footer(b[k].bp) == b[k].bp + b[k].size - DSIZE
      ensures k + 1 < |b| ==> b[k].size >= 8 && b[k + 1].bp == b[k].bp + b[k].size
      ensures k > 0 ==>
                && SizeAt(b[k].bp - DSIZE) == b[k - 1].size && AllocAt(b[k].bp - DSIZE) == b[k - 1].alloc
                && PrevBlk(b[k].bp) == b[k - 1].bp && b[k].bp == b[k - 1].bp + b[k - 1].size
    {
      hide Tiles, Tagged, Word, TagsAt;
      ReadsTags(mem.bytes[..], b, k);
      if k > 0 { ReadsTags(mem.bytes[..], b, k - 1); }
    }

    constructor (maxHeap: nat)
      ensures mem.Valid() && mem.brk == 0 && mem.bytes.Length == maxHeap && fresh(mem) && fresh(mem.bytes)
    {
      mem := new Memory(maxHeap);
      heapListp, preListp, b := 0, 0, [];
    }

    /** coalesce(bp), for a free block whose neighbours may be free too. */
    method Coalesce(bp: nat, ghost k: nat) returns (r: nat)
      requires Sound(mem.bytes[..], b, mem.brk) && 0 < k < |b| - 1 && bp == b[k].bp && !b[k].alloc && SettledBut(b, k)
      modifies this`b, mem.bytes
      ensures Sound(mem.bytes[..], b, mem.brk) && Settled(b)
      ensures b == Coalesced(old(b), k) && 0 < Lo(old(b), k) < |b| && r == b[Lo(old(b), k)].bp
      ensures LiveOf(mem.bytes[..], b) == old(LiveOf(mem.bytes[..], b))
    {
      hide Tiles, Tagged, Settled, SettledBut, LiveOf, Coalesced;
      ghost var m := mem.bytes[..];
      CoalescedFits(b, k);
      r := Joins(bp, k);
      CoalescedKept(m, mem.bytes[..], b, k);
      LastStays(b, k);
      b := Coalesced(b, k);
    }

    // Header and footer of a block; the footer goes where the new header says the block ends.
    method SetTags(bp: nat, size: nat, alloc: bool)
      requires mem.bytes.Length < 0x8000_0000 && 4 <= bp && 8 <= size
      requires size % 8 == 0 && bp + size - WSIZE <= mem.bytes.Length
      modifies mem.bytes
      ensures TagsAt(mem.bytes[..], Blk(bp, size, alloc))
      ensures Same(old(mem.bytes[..]), mem.bytes[..], bp - WSIZE, bp + size - WSIZE)
      ensures SizeAt(bp - WSIZE) == size
    {
      hide Word, Same, Pack;
      ghost var m := mem.bytes[..];
      Unpack(size, alloc);
      PackFits(size, alloc);
      mem.Put(bp - WSIZE, Pack(size, alloc));
      ghost var m1 := mem.bytes[..];
      mem.Put(Footer(bp), Pack(size, alloc));
      TwoPuts(m, m1, mem.bytes[..], bp - WSIZE, bp + size - DSIZE);
    }

    // The following block is free too.
    method JoinNext(bp: nat, size: nat, ghost k: nat) returns (r: nat)
      requires Sound(mem.bytes[..], b, mem.brk) && 0 < k < |b| - 1 && bp == b[k].bp
      requires !b[k].alloc && size == b[k].size && !b[k + 1].alloc
      modifies mem.bytes
      ensures r == b[k].bp <= (b[k + 1].bp + b[k + 1].size)
      ensures Same(old(mem.bytes[..]), mem.bytes[..], r - WSIZE, (b[k + 1].bp + b[k + 1].size) - WSIZE)
      ensures TagsAt(mem.bytes[..], Blk(r, (b[k + 1].bp + b[k + 1].size) - r, false))
    {
      hide Tiles, Tagged, Word, Same, TagsAt, PrevBlk, AllocAt;
      ghost var m := mem.bytes[..];
      Spans(b, k);
      Reads(k);
      Reads(k + 1);
      Reads(k + 2);
      var total := size + SizeAt(NextBlk(bp) - WSIZE);
      SetTags(bp, total, false);
      r := bp;
    }

    // Two PUTs of the same word; the second address does not depend on the first word.
    method PutBoth(p: nat, q: nat, v: nat)
      requires p + 4 <= mem.bytes.Length && q + 4 <= mem.bytes.Length && (p + 4 <= q || q + 4 <= p) && v < WORD
      modifies mem.bytes
      ensures Word(mem.bytes[..], p) == v && Word(mem.bytes[..], q) == v
      ensures Same(old(mem.bytes[..]), mem.bytes[..], if p < q then p else q, if p < q then q + 4 else p + 4)
      ensures forall x :: 0 <= x && x + 4 <= mem.bytes.Length
                          && (x + 4 <= p || p + 4 <= x) && (x + 4 <= q || q + 4 <= x) ==>
                Word(mem.bytes[..], x) == old(Word(mem.bytes[..], x))
    {
      ghost var m := mem.bytes[..];
      mem.Put(p, v);
      ghost var m1 := mem.bytes[..];
      mem.Put(q, v);
      TwoPuts(m, m1, mem.bytes[..], p, q);
    }

    // The preceding block is free too.
    method JoinPrev(bp: nat, size: nat, ghost k: nat) returns (r: nat)
      requires Sound(mem.bytes[..], b, mem.brk) && 0 < k < |b| - 1 && bp == b[k].bp
      requires !b[k].alloc && size == b[k].size && !b[k - 1].alloc
      modifies mem.bytes
      ensures r == b[k - 1].bp <= b[k + 1].bp
      ensures Same(old(mem.bytes[..]), mem.bytes[..], r - WSIZE, b[k + 1].bp - WSIZE)
      ensures TagsAt(mem.bytes[..], Blk(r, b[k + 1].bp - r, false))
    {
      hide Tiles, Tagged, Word, Same, TagsAt, SizeAt, NextBlk, PrevBlk, Footer;
      ghost var m := mem.bytes[..];
      Spans(b, k);
      Reads(k - 1);
      Reads(k);
      Reads(k + 1);
      ghost var prev, end := b[k - 1].bp, b[k + 1].bp;
      var total := size + SizeAt(PrevBlk(bp) - WSIZE);
      assert total == end - prev && PrevBlk(bp) == prev && Footer(bp) == end - DSIZE;
      r := PrevBlk(bp);
      PutBoth(Footer(bp), r - WSIZE, Pack(total, false));
      TagsFromWords(mem.bytes[..], prev, total);
    }

    // Both neighbours are free.
    method JoinBoth(bp: nat, size: nat, ghost k: nat) returns (r: nat)
      requires Sound(mem.bytes[..], b, mem.brk) && 0 < k < |b| - 1 && bp == b[k].bp
      requires !b[k].alloc && size == b[k].size && !b[k - 1].alloc && !b[k + 1].alloc
      modifies mem.bytes
      ensures r == b[k - 1].bp <= (b[k + 1].bp + b[k + 1].size)
      ensures Same(old(mem.bytes[..]), mem.bytes[..], r - WSIZE, (b[k + 1].bp + b[k + 1].size) - WSIZE)
      ensures TagsAt(mem.bytes[..], Blk(r, (b[k + 1].bp + b[k + 1].size) - r, false))
    {
      hide Tiles, Tagged, Word, Same, TagsAt, SizeAt, NextBlk, PrevBlk, Footer;
      ghost var m := mem.bytes[..];
      Spans(b, k);
      Reads(k - 1);
      Reads(k);
      Reads(k + 1);
      Reads(k + 2);
      ghost var prev, end := b[k - 1].bp, (b[k + 1].bp + b[k + 1].size);
      var total := size + SizeAt(NextBlk(bp) - WSIZE) + SizeAt(Footer(PrevBlk(bp)));
      assert total == end - prev && PrevBlk(bp) == prev && Footer(NextBlk(bp)) == end - DSIZE;
      r := PrevBlk(bp);
      PutBoth(r - WSIZE, Footer(NextBlk(bp)), Pack(total, false));
      TagsFromWords(mem.bytes[..], prev, total);
    }

    // The four cases of coalesce; the merged block is Lo(b, k) up to Hi(b, k).
    method Joins(bp: nat, ghost k: nat) returns (r: nat)
      requires Sound(mem.bytes[..], b, mem.brk) && 0 < k < |b| - 1 && bp == b[k].bp && !b[k].alloc
      modifies mem.bytes
      ensures 0 < Lo(b, k) < Hi(b, k) < |b| && r == b[Lo(b, k)].bp <= b[Hi(b, k)].bp
      ensures Same(old(mem.bytes[..]), mem.bytes[..], r - WSIZE, b[Hi(b, k)].bp - WSIZE)
      ensures TagsAt(mem.bytes[..], Blk(r, b[Hi(b, k)].bp - r, false))
    {
      hide Tiles, Tagged, Word, Same, TagsAt, SizeAt, NextBlk, PrevBlk, Footer, AllocAt;
      ghost var m := mem.bytes[..];
      SameSelf(m);
      ReadsTags(m, b, k);
      Spans(b, k);
      Reads(k - 1);
      Reads(k);
      Reads(k + 1);
      Reads(Hi(b, k));
      var prevAlloc := AllocAt(Footer(PrevBlk(bp)));
      var nextAlloc := AllocAt(NextBlk(bp) - WSIZE);
      var size := SizeAt(bp - WSIZE);
      if prevAlloc && nextAlloc {
        r := bp;
      } else if prevAlloc && !nextAlloc {
        r := JoinNext(bp, size, k);
      } else if !prevAlloc && nextAlloc {
        r := JoinPrev(bp, size, k);
      } else {
        r := JoinBoth(bp, size, k);
      }
    }

    // The free block at p, and the epilogue after it.
    method TagNew(p: nat, size: nat)
      requires mem.bytes.Length < 0x8000_0000 && 8 <= p && 8 <= size && size % 8 == 0 && p + size <= mem.bytes.Length
      modifies mem.bytes
      ensures TagsAt(mem.bytes[..], Blk(p, size, false)) && TagsAt(mem.bytes[..], Blk(p + size, 0, true))
      ensures Same(old(mem.bytes[..]), mem.bytes[..], p - WSIZE, p + size)
    {
      hide TagsAt, Same, Word;
      ghost var m := mem.bytes[..];
      SetTags(p, size, false);
      ghost var m1 := mem.bytes[..];
      mem.Put(NextBlk(p) - WSIZE, Pack(0, true));
      Epilogue(m, m1, mem.bytes[..], p, size);
    }

    // An even number of words, in bytes.
    method EvenUp(words: nat) returns (size: nat)
      requires 0 < words < 0x3FFF_FFFF
      ensures size == EvenSize(words) && size % 8 == 0 && 8 <= size < WORD
    {
      size := if words % 2 == 1 then (words + 1) * WSIZE else words * WSIZE;
    }

    // extend_heap up to its call of coalesce: -1 when mem_sbrk refuses.
    method Grow(words: nat) returns (p: int)
      requires Valid() && 0 < words < 0x3FFF_FFFF
      modifies this`b, mem`brk, mem.bytes
      ensures Sound(mem.bytes[..], b, mem.brk) && LiveOf(mem.bytes[..], b) == old(LiveOf(mem.bytes[..], b))
      ensures p == -1 <==> old(mem.brk) + EvenSize(words) > mem.bytes.Length
      ensures p == -1 ==> b == old(b)
      ensures p != -1 ==> p == old(b)[|old(b)| - 1].bp && b == Extended(old(b), EvenSize(words))
    {
      SoundBreak(mem.bytes[..], b, mem.brk);
      hide Sound, TagsAt, Settled, LiveOf, Extended, Same, Starts, EvenSize, Word;
      var size := EvenUp(words);
      p := mem.Sbrk(AsInt(size));
      if p == -1 {
        return;
      }
      ghost var m := mem.bytes[..];
      TagNew(p, size);
      ExtendedSound(m, mem.bytes[..], b, p, size);
      b := Extended(b, size);
    }

    /** extend_heap(words): 0 when mem_sbrk refuses. */
    method ExtendHeap(words: nat) returns (r: nat)
      requires Valid() && 0 < words < 0x3FFF_FFFF
      modifies this`b, mem`brk, mem.bytes
      ensures Valid() && preListp == old(preListp) && LiveOf(mem.bytes[..], b) == old(LiveOf(mem.bytes[..], b))
      ensures r == 0 <==> old(mem.brk) + EvenSize(words) > mem.bytes.Length
      ensures r == 0 ==> b == old(b)
      ensures r != 0 ==> FreeAt(b, r, EvenSize(words))
    {
      assert |b| >= 2 && Tiles(b);
      hide Sound, Tiles, Settled, SettledBut, LiveOf, Coalesced, Extended, EvenSize;
      hide Starts, FreeAt, Lo, SizeAt, AllocAt, NextBlk, PrevBlk, Footer;
      EvenIs(words);
      ghost var k := |b| - 1;
      ghost var was, e := b, Extended(b, EvenSize(words));
      var p := Grow(words);
      if p == -1 {
        return 0;
      }
      assert b == e;
      StillOnChain(was, EvenSize(words), k, preListp);
      r := Coalesce(p, k);
      assert b == Coalesced(e, k) && Starts(b, preListp) && FreeAt(b, r, EvenSize(words));
    }

    // The first suitable block at or after pre_listp, q being pre_listp's place.
    method SearchOn(asize: nat, ghost q: nat) returns (found: bool, ghost k: nat)
      requires Valid() && asize > 0 && q < |b| && b[q].bp == preListp
      modifies this`preListp
      ensures q <= k < |b|
      ensures !found ==> preListp == old(preListp) && forall j :: q <= j < |b| ==> !Suits(b[j], asize)
      ensures found ==> preListp == b[k].bp && Suits(b[k], asize) && forall j :: q <= j < k ==> !Suits(b[j], asize)
    {
      hide Tiles, Tagged, Settled, LiveOf, Starts, SizeAt, AllocAt, NextBlk, PrevBlk, Footer;
      EndsHeap(b);
      var bp := preListp;
      k := q;
      Reads(k);
      var alloc := AllocAt(bp - WSIZE);
      var size := SizeAt(bp - WSIZE);
      while !(size == 0 && alloc)
        invariant preListp == old(preListp)
        invariant q <= k < |b| && bp == b[k].bp && 8 <= bp <= mem.bytes.Length
        invariant alloc == b[k].alloc && size == b[k].size
        invariant forall j :: q <= j < k ==> !Suits(b[j], asize)
        decreases |b| - k
      {
        if (size == asize || size >= asize + OVERHEAD) && !alloc {
          preListp := bp;
          return true, k;
        }
        Reads(k);
        Reads(k + 1);
        bp := NextBlk(bp);
        k := k + 1;
        alloc := AllocAt(bp - WSIZE);
        size := SizeAt(bp - WSIZE);
      }
      Reads(k);
      found := false;
    }

    // The first suitable block before pre_listp.
    method SearchBefore(asize: nat, ghost q: nat) returns (found: bool, ghost k: nat)
      requires Valid() && asize > 0 && q < |b| && b[q].bp == preListp
      modifies this`preListp
      ensures k <= q && forall j :: 0 <= j < k ==> !Suits(b[j], asize)
      ensures found ==> k < q && preListp == b[k].bp && Suits(b[k], asize)
      ensures !found ==> k == q && preListp == old(preListp)
    {
      hide Tiles, Tagged, Settled, LiveOf, Starts, SizeAt, AllocAt, NextBlk, PrevBlk, Footer;
      EndsHeap(b);
      ghost var only := StartIndex(b, preListp);
      var bp := heapListp;
      k := 0;
      Reads(k);
      var alloc := AllocAt(bp - WSIZE);
      var size := SizeAt(bp - WSIZE);
      while bp != preListp
        invariant preListp == old(preListp)
        invariant 0 <= k <= q && bp == b[k].bp && 8 <= bp <= mem.bytes.Length
        invariant alloc == b[k].alloc && size == b[k].size
        invariant forall j :: 0 <= j < k ==> !Suits(b[j], asize)
        decreases q - k
      {
        if (size == asize || size >= asize + OVERHEAD) && !alloc {
          preListp := bp;
          return true, k;
        }
        Reads(k);
        Reads(k + 1);
        bp := NextBlk(bp);
        k := k + 1;
        alloc := AllocAt(bp - WSIZE);
        size := SizeAt(bp - WSIZE);
      }
      found := false;
    }

    /** find_fit: the first suitable block at or after pre_listp, else the first one before it; 0
        only when no block of the heap is suitable. */
    method FindFit(asize: nat) returns (r: nat, ghost k: nat)
      requires Valid() && asize > 0
      modifies this`preListp
      ensures Valid()
      ensures r == 0 <==> NoneSuits(b, asize)
      ensures r == 0 ==> preListp == old(preListp)
      ensures r != 0 ==> 0 < k < |b| - 1 && b[k].bp == r == preListp && Suits(b[k], asize)
      ensures r != 0 ==> forall q :: 0 <= q < |b| && b[q].bp == old(preListp) ==>
                if q <= k then forall j :: q <= j < k ==> !Suits(b[j], asize)
                else forall j :: 0 <= j < |b| && (q <= j || j < k) ==> !Suits(b[j], asize)
    {
      hide Tiles, Tagged, Settled, LiveOf, Starts;
      EndsHeap(b);
      ghost var q := StartIndex(b, preListp);
      var found: bool;
      found, k := SearchOn(asize, q);
      if !found {
        found, k := SearchBefore(asize, q);
      }
      if found {
        StartsAt(b, k);
        Positive(b, k);
        return preListp, k;
      }
      r := 0;
    }

    /** place: block k becomes allocated, and what it does not need becomes a free block. */
    method Place(bp: nat, asize: nat, ghost k: nat)
      requires Sound(mem.bytes[..], b, mem.brk) && Settled(b) && 0 < k < |b| - 1
      requires bp == b[k].bp && Suits(b[k], asize) && asize % 8 == 0 && asize >= 8
      modifies this`b, mem.bytes
      ensures Sound(mem.bytes[..], b, mem.brk) && Settled(b) && b == Placed(old(b), k, asize) && b[k].bp == bp
      ensures bp + b[k].size - OVERHEAD <= mem.bytes.Length && b[k].size >= asize
      ensures LiveOf(mem.bytes[..], b) ==
              old(LiveOf(mem.bytes[..], b))[bp := mem.bytes[..][bp..bp + b[k].size - OVERHEAD]]
    {
      hide Tiles, Tagged, Settled, LiveOf, Word, TagsAt, Same, Placed;
      ghost var m := mem.bytes[..];
      BlockThere(k);
      PlacedFits(b, k, asize);
      LastPlaced(b, k, asize);
      var size := SizeAt(bp - WSIZE);
      SetTags(bp, size, true);
      ghost var m1 := mem.bytes[..];
      if size >= asize + OVERHEAD {
        SetTags(bp, asize, true);
        ghost var m2 := mem.bytes[..];
        SetTags(NextBlk(bp), size - asize, false);
        SplitKept(m, m1, m2, mem.bytes[..], b, k, asize);
      } else {
        WholeKept(m, m1, b, k, asize);
      }
      b := Placed(b, k, asize);
    }

    // A block before the epilogue, as the macros see it.
    lemma BlockThere(k: nat)
      requires Tiles(b) && Tagged(mem.bytes[..], b) && 0 < k < |b| - 1
      ensures 8 <= b[k].bp && b[k].bp + b[k].size <= mem.bytes.Length && SizeAt(b[k].bp - WSIZE) == b[k].size >= 8
      ensures b[k].size % 8 == 0
    {
      hide Tiles, Tagged;
      Reads(k);
      Reads(k + 1);
    }

    // The padding word, the prologue and the epilogue.
    method PutEnds(p: nat)
      requires p + 16 <= mem.bytes.Length
      modifies mem.bytes
      ensures TagsAt(mem.bytes[..], Blk(p + 8, OVERHEAD, true)) && TagsAt(mem.bytes[..], Blk(p + 16, 0, true))
    {
      hide Word;
      mem.Put(p, 0);
      mem.Put(p + WSIZE, Pack(OVERHEAD, true));
      ghost var m1 := mem.bytes[..];
      mem.Put(p + DSIZE, Pack(OVERHEAD, true));
      ghost var m2 := mem.bytes[..];
      mem.Put(p + WSIZE + DSIZE, Pack(0, true));
      SameWord(m1, m2, p + DSIZE, p + 12, p + WSIZE);
      SameWord(m2, mem.bytes[..], p + 12, p + 16, p + WSIZE);
      SameWord(m2, mem.bytes[..], p + 12, p + 16, p + DSIZE);
    }

    /** mm_init, on an empty heap. A refused mem_sbrk yields -1, which the test against NULL lets
        through; strays says that the stores then go through address -1. */
    method Init() returns (ok: bool, strays: bool)
      requires mem.brk == 0 && mem.bytes.Length < 0x8000_0000
      modifies this, mem`brk, mem.bytes
      ensures strays <==> mem.bytes.Length < 16
      ensures ok <==> 16 + CHUNKSIZE <= mem.bytes.Length
      ensures !strays ==> Valid() && Payloads() == map[]
    {
      var p := mem.Sbrk(4 * WSIZE);
      if p < 0 { return false, true; }
      heapListp := p;
      PutEnds(p);
      heapListp := heapListp + DSIZE;
      preListp := heapListp;
      b := Bare();
      BareHeap(mem.bytes[..]);
      hide Sound, Settled, Starts, LiveOf, Bare;
      var bp := ExtendHeap(CHUNKSIZE / WSIZE);
      ok, strays := bp != 0, false;
    }

    /** mm_malloc: 0 for size 0, and otherwise only when no block suits and mem_sbrk has no room
        for more; else a fresh, 8-aligned payload of at least size bytes, all others untouched. */
    method Malloc(size: nat) returns (r: nat)
      requires Valid() && size <= WORD - 16
      modifies this`b, this`preListp, mem`brk, mem.bytes
      ensures Valid()
      ensures r == 0 <==>
              size == 0 || (NoneSuits(old(b), Adjusted(size)) && old(mem.brk) + Growth(size) > mem.bytes.Length)
      ensures r == 0 ==> Payloads() == old(Payloads())
      ensures r != 0 ==> r % 8 == 0 && r !in old(Payloads()) && r in Payloads() && |Payloads()[r]| >= size
                         && Payloads() == old(Payloads())[r := Payloads()[r]]
    {
      hide Tiles, Tagged, Settled, LiveOf, Starts, Suits, NoneSuits, FreeAt, Adjusted, Growth, EvenSize, Sound;
      if size <= 0 {
        return 0;
      }
      var asize := AdjustSize(size);
      ghost var k;
      r, k := FindFit(asize);
      if r != 0 {
        Take(r, asize, k);
        return;
      }
      var extendsize := if asize > CHUNKSIZE then asize else CHUNKSIZE;
      GrowthIs(size, extendsize);
      var bp := ExtendHeap(extendsize / WSIZE);
      if bp == 0 {
        return 0;
      }
      FreeSuits(mem.bytes[..], b, mem.brk, bp, extendsize, asize);
      r, k := FindFit(asize);
      if r != 0 {
        Take(r, asize, k);
      }
    }

    // The size of a block for a payload of size bytes.
    method AdjustSize(size: nat) returns (asize: nat)
      requires size > 0
      ensures asize == Adjusted(size)
    {
      if size <= DSIZE {
        asize := DSIZE + OVERHEAD;
      } else {
        asize := DSIZE * ((size + OVERHEAD + DSIZE - 1) / DSIZE);
      }
    }

    // place, for the block find_fit has just returned.
    method Take(r: nat, asize: nat, ghost k: nat)
      requires Valid() && 0 < k < |b| - 1 && r == b[k].bp == preListp
      requires Suits(b[k], asize) && asize % 8 == 0 && asize >= 16
      modifies this`b, mem.bytes
      ensures Valid()
      ensures r != 0 && r % 8 == 0 && r !in old(Payloads()) && r in Payloads() && |Payloads()[r]| >= asize - OVERHEAD
              && Payloads() == old(Payloads())[r := Payloads()[r]]
    {
      hide Tiles, Tagged, Settled, LiveOf, Word, TagsAt, Same;
      NotLive(mem.bytes[..], b, k);
      Reads(k);
      Place(r, asize, k);
      StartsAt(b, k);
    }

    /** mm_free of a live payload: it is gone, all others are untouched. */
    method Free(p: nat)
      requires Valid() && p in Payloads()
      modifies this`b, this`preListp, mem.bytes
      ensures Valid() && Payloads() == old(Payloads()) - {p}
    {
      hide Tiles, Tagged, Settled, LiveOf, Word, TagsAt, Same, Coalesced, SettledBut, Starts;
      ghost var m := mem.bytes[..];
      ghost var k := LiveIndex(m, b, p);
      Reads(k);
      Reads(k + 1);
      FreedFits(b, k);
      FreedStart(b, k);
      var size := SizeAt(p - WSIZE);
      SetTags(p, size, false);
      FreedKept(m, mem.bytes[..], b, k);
      b := Freed(b, k);
      preListp := Coalesce(p, k);
    }

    // Two blocks as the macros see them, in the heap and apart.
    lemma Extents(k: nat, l: nat)
      requires Tiles(b) && Tagged(mem.bytes[..], b) && 0 < k < |b| - 1 && 0 < l < |b| - 1 && k != l
      ensures 8 <= b[k].bp && b[k].bp + b[k].size <= mem.bytes.Length && b[l].bp + b[l].size <= mem.bytes.Length
      ensures SizeAt(b[k].bp - WSIZE) == b[k].size >= 8
      ensures b[k].bp + b[k].size <= b[l].bp || b[l].bp + b[l].size <= b[k].bp
    {
      hide Tiles, Tagged;
      BlockThere(k);
      BlockThere(l);
      ExtentsApart(b, k, l);
    }

    // The memcpy of mm_realloc: as many bytes as the old block has, or size if that is less.
    method CopyOver(p: nat, q: nat, size: nat, ghost k: nat, ghost l: nat)
      requires Valid() && 0 < k < |b| - 1 && 0 < l < |b| - 1 && k != l && p == b[k].bp && q == b[l].bp && b[l].alloc
      requires b[l].size >= size + OVERHEAD
      modifies mem.bytes
      ensures Valid() && b[k].size >= 8
      ensures b[k].bp + b[k].size <= mem.bytes.Length && b[l].bp + b[l].size <= mem.bytes.Length
      ensures LiveOf(mem.bytes[..], b) == old(LiveOf(mem.bytes[..], b))[q := Payload(mem.bytes[..], b[l])]
      ensures Agree(Payload(mem.bytes[..], b[l]), old(Payload(mem.bytes[..], b[k])), size)
    {
      hide Tiles, Tagged, Settled, LiveOf, Starts, Same, Agree, Payload, SizeAt;
      Extents(k, l);
      var copySize := SizeAt(p - WSIZE);
      if size < copySize {
        copySize := size;
      }
      ghost var m := mem.bytes[..];
      mem.Copy(q, p, copySize);
      CopiedOver(m, mem.bytes[..], b, k, l, p, q, copySize, size);
    }

    /** mm_realloc of a live payload: 0 and no change, or a payload of at least size bytes that
        begins with what the old one held, as far as both reach. */
    method Realloc(p: nat, size: nat) returns (q: nat)
      requires Valid() && p in Payloads() && size <= WORD - 16
      modifies this`b, this`preListp, mem`brk, mem.bytes
      ensures Valid()
      ensures q == 0 <==>
              size == 0 || (NoneSuits(old(b), Adjusted(size)) && old(mem.brk) + Growth(size) > mem.bytes.Length)
      ensures q == 0 ==> Payloads() == old(Payloads())
      ensures q != 0 ==> q % 8 == 0 && q !in old(Payloads()) && q in Payloads() && |Payloads()[q]| >= size
                         && Payloads() == (old(Payloads()) - {p})[q := Payloads()[q]]
      ensures q != 0 ==> Agree(Payloads()[q], old(Payloads())[p], size)
    {
      hide Tiles, Tagged, Settled, LiveOf, Starts, NoneSuits, Adjusted, Growth, Agree;
      q := Malloc(size);
      if q == 0 {
        return;
      }
      ghost var given := Payloads();
      ghost var k := LiveIndex(mem.bytes[..], b, p);
      ghost var l := LiveIndex(mem.bytes[..], b, q);
      CopyOver(p, q, size, k, l);
      ghost var filled := Payloads();
      Free(p);
      Moved(old(Payloads()), given, filled, Payloads(), p, q);
    }
  }

  // The heap mm_init starts with.
  function Bare(): seq<Blk> {
    [Blk(BASE, OVERHEAD, true), Blk(16, 0, true)]
  }

  lemma BareHeap(m: seq<byte>)
    requires 16 <= |m| < 0x8000_0000 && TagsAt(m, Blk(BASE, OVERHEAD, true)) && TagsAt(m, Blk(16, 0, true))
    ensures Sound(m, Bare(), 16) && Settled(Bare()) && Starts(Bare(), BASE) && LiveOf(m, Bare()) == map[]
  {
    hide TagsAt;
    StartsAt(Bare(), 0);
    assert Bare()[1..|Bare()| - 1] == [];
  }

  /** Live payloads are 8-aligned, lie in the heap, and are apart from one another by at least a
      footer and a header. */
  lemma PayloadsApart(m: seq<byte>, b: seq<Blk>, brk: nat, p: nat, q: nat)
    requires Sound(m, b, brk) && p in LiveOf(m, b) && q in LiveOf(m, b) && p != q
    ensures p % 8 == 0 && BASE < p && p + |LiveOf(m, b)[p]| + OVERHEAD <= brk
    ensures p + |LiveOf(m, b)[p]| + OVERHEAD <= q || q + |LiveOf(m, b)[q]| + OVERHEAD <= p
  {
    hide LiveOf, Tagged;
    var k := LiveIndex(m, b, p);
    var l := LiveIndex(m, b, q);
    Aligned(b, k);
    InOrder(b, 0, k);
    InOrder(b, k, |b| - 1);
    ExtentsApart(b, k, l);
  }

  // As far as both reach, the first n bytes are the same.
  predicate Agree(s: seq<byte>, t: seq<byte>, n: nat) {
    forall i :: 0 <= i < n && i < |s| && i < |t| ==> s[i] == t[i]
  }

  /** The block size mm_malloc looks for, and how much it grows the heap by when it finds none. */
  function Adjusted(size: nat): (a: nat)
    ensures a % 8 == 0 && a >= size + OVERHEAD && a >= 16 && (size > DSIZE ==> a < size + OVERHEAD + 8)
  {
    if size <= DSIZE then DSIZE + OVERHEAD else DSIZE * ((size + OVERHEAD + DSIZE - 1) / DSIZE)
  }

  function Growth(size: nat): nat {
    if Adjusted(size) > CHUNKSIZE then Adjusted(size) else CHUNKSIZE
  }

  lemma GrowthIs(size: nat, extendsize: nat)
    requires size <= WORD - 16
    requires extendsize == if Adjusted(size) > CHUNKSIZE then Adjusted(size) else CHUNKSIZE
    ensures extendsize == Growth(size) && Growth(size) >= Adjusted(size) && Growth(size) >= CHUNKSIZE
    ensures 0 < extendsize / WSIZE < 0x3FFF_FFFF && EvenSize(extendsize / WSIZE) == extendsize
  {
    var q := extendsize / 8;
    assert extendsize == 8 * q;
    assert extendsize / WSIZE == 2 * q;
  }

  // A free block that is large enough suits: all sizes are multiples of 8.
  lemma FreeSuits(m: seq<byte>, b: seq<Blk>, brk: nat, p: nat, size: nat, asize: nat)
    requires Sound(m, b, brk) && FreeAt(b, p, size) && size >= asize && asize % 8 == 0
    ensures !NoneSuits(b, asize)
  {
    hide Tiles, Tagged;
    var k :| 0 < k < |b| - 1 && b[k].bp == p && !b[k].alloc && b[k].size >= size;
    Multiples(b, k);
    assert Suits(b[k], asize);
  }

  lemma Multiples(b: seq<Blk>, k: nat)
    requires Tiles(b) && k < |b| - 1
    ensures b[k].size % 8 == 0
  {
  }

  predicate NoneSuits(b: seq<Blk>, asize: nat) {
    forall j :: 0 <= j < |b| ==> !Suits(b[j], asize)
  }

  lemma NotLive(m: seq<byte>, b: seq<Blk>, k: nat)
    requires Tiles(b) && 0 < k < |b| - 1 && !b[k].alloc
    ensures b[k].bp !in LiveOf(m, b)
  {
    if b[k].bp in LiveOf(m, b) {
      var j := LiveIndex(m, b, b[k].bp);
      OneStart(b, j, k);
    }
  }

  lemma FreedStart(b: seq<Blk>, k: nat)
    requires Tiles(b) && 0 < k < |b| - 1 && Tiles(Freed(b, k))
    ensures var c, i := Coalesced(Freed(b, k), k), Lo(Freed(b, k), k); 0 < i < |c| && Starts(c, c[i].bp)
  {
    var e := Freed(b, k);
    Spans(e, k);
    CoalescedStarts(e, k);
    StartsAt(Coalesced(e, k), Lo(e, k));
  }

  lemma FreedKept(m: seq<byte>, n: seq<byte>, b: seq<Blk>, k: nat)
    requires Tiles(b) && Tagged(m, b) && 0 < k < |b| - 1 && Same(m, n, b[k].bp - WSIZE, b[k].bp + b[k].size - WSIZE)
    requires TagsAt(n, b[k].(alloc := false))
    ensures Tagged(n, Freed(b, k)) && LiveOf(n, Freed(b, k)) == LiveOf(m, b) - {b[k].bp}
  {
    hide Tiles, Tagged, LiveOf, TagsAt, Same;
    var x := b[k].(alloc := false);
    NextStart(b, k);
    OneTagged(n, x);
    SpliceTagged(m, n, b, k, k + 1, [x]);
    LiveRemove(m, n, b, k, x);
    assert Freed(b, k) == Splice(b, k, k + 1, [x]);
  }

  lemma Moved(before: map<nat, seq<byte>>, given: map<nat, seq<byte>>,
              filled: map<nat, seq<byte>>, after: map<nat, seq<byte>>,
              p: nat, q: nat)
    requires p in before && q !in before && q in given && given == before[q := given[q]]
    requires q in filled && filled == given[q := filled[q]] && after == filled - {p}
    ensures q in after && after[q] == filled[q] && after == (before - {p})[q := after[q]]
  {
  }

  lemma Copied(m: seq<byte>, n: seq<byte>, p: nat, q: nat, count: nat, have: nat, room: nat, size: nat)
    requires |n| == |m| && p + count <= |m| && q + count <= |n| && n[q..q + count] == m[p..p + count]
    requires count <= room && p + have <= |m| && q + room <= |n| && (count == size || have <= count)
    ensures Agree(n[q..q + room], m[p..p + have], size)
  {
    var s, t := n[q..q + room], m[p..p + have];
    forall i | 0 <= i < size && i < |s| && i < |t| ensures s[i] == t[i] {
      assert n[q..q + count][i] == m[p..p + count][i];
    }
  }

  // What lies between a block's header and its footer.
  function Payload(m: seq<byte>, x: Blk): seq<byte>
    requires 8 <= x.size && x.bp + x.size <= |m| + OVERHEAD
  {
    m[x.bp..x.bp + x.size - OVERHEAD]
  }

  // The bytes of block k copied into the payload of block l.
  lemma CopiedOver(m: seq<byte>, n: seq<byte>, b: seq<Blk>, k: nat, l: nat, p: nat, q: nat, count: nat, size: nat)
    requires Tiles(b) && Tagged(m, b) && 0 < k < |b| - 1 && 0 < l < |b| - 1
    requires k != l && b[l].alloc && p == b[k].bp && q == b[l].bp
    requires b[k].size >= 8 && count + OVERHEAD <= b[l].size && (count == size || b[k].size == count)
    requires p + b[k].size <= |m| && q + b[l].size <= |m| && p + count <= |m| && Same(m, n, q, q + count)
    requires n[q..q + count] == m[p..p + count]
    ensures |n| == |m| && Tagged(n, b)
    ensures LiveOf(n, b) == LiveOf(m, b)[q := Payload(n, b[l])]
    ensures Agree(Payload(n, b[l]), Payload(m, b[k]), size)
  {
    hide Tiles, Tagged, LiveOf, Agree;
    CopyKept(m, n, b, l, count);
    Copied(m, n, p, q, count, b[k].size - OVERHEAD, b[l].size - OVERHEAD, size);
  }

  // Bytes copied into the payload of block l change nothing else.
  lemma CopyKept(m: seq<byte>, n: seq<byte>, b: seq<Blk>, l: nat, count: nat)
    requires Tiles(b) && Tagged(m, b) && 0 < l < |b| - 1 && b[l].alloc && count + OVERHEAD <= b[l].size
    requires Same(m, n, b[l].bp, b[l].bp + count)
    ensures b[l].bp + b[l].size - OVERHEAD <= |m| && Tagged(n, b)
    ensures LiveOf(n, b) == LiveOf(m, b)[b[l].bp := n[b[l].bp..b[l].bp + b[l].size - OVERHEAD]]
  {
    hide Tiles, LiveOf, Word, Tagged;
    ReadsTags(m, b, l);
    NextStart(b, l);
    Inside(m, n, b[l], count);
    PlacedKept(m, n, b, l, b[l], []);
    assert Splice(b, l, l + 1, [b[l]] + []) == b;
  }

  lemma Inside(m: seq<byte>, n: seq<byte>, x: Blk, count: nat)
    requires TagsAt(m, x) && x.size >= 8 && count + OVERHEAD <= x.size && Same(m, n, x.bp, x.bp + count)
    ensures TagsAt(n, x) && Same(m, n, x.bp - WSIZE, x.bp + x.size - WSIZE)
  {
    SameWord(m, n, x.bp, x.bp + count, x.bp - WSIZE);
    SameWord(m, n, x.bp, x.bp + count, x.bp + x.size - DSIZE);
  }

  lemma LastPlaced(b: seq<Blk>, k: nat, asize: nat)
    requires 0 < k < |b| - 1
    ensures var c := Placed(b, k, asize);
            && |c| >= |b| && c[|c| - 1] == b[|b| - 1] && c[k].bp == b[k].bp
            && c[k].size == if b[k].size >= asize + OVERHEAD then asize else b[k].size
  {
  }

  lemma PlacedKept(m: seq<byte>, n: seq<byte>, b: seq<Blk>, k: nat, x: Blk, rest: seq<Blk>)
    requires Tiles(b) && Tagged(m, b) && 0 < k < |b| - 1 && Same(m, n, b[k].bp - WSIZE, b[k + 1].bp - WSIZE)
    requires x.bp == b[k].bp && x.alloc && x.size >= 8 && TagsAt(n, x)
    requires forall j :: 0 <= j < |rest| ==> !rest[j].alloc && TagsAt(n, rest[j])
    ensures x.bp + x.size - OVERHEAD <= |m| && Tagged(n, Splice(b, k, k + 1, [x] + rest))
    ensures LiveOf(n, Splice(b, k, k + 1, [x] + rest)) == LiveOf(m, b)[x.bp := n[x.bp..x.bp + x.size - OVERHEAD]]
  {
    hide Tiles, LiveOf, Word;
    SpliceTagged(m, n, b, k, k + 1, [x] + rest);
    LiveUpdate(m, n, b, k, x, rest);
  }

  lemma Widen(m: seq<byte>, m1: seq<byte>, m2: seq<byte>, n: seq<byte>, lo: int, mid: int, hi: int)
    requires lo <= mid <= hi && Same(m, m1, lo, hi) && Same(m1, m2, lo, mid) && Same(m2, n, mid, hi)
    ensures Same(m, n, lo, hi)
  {
  }

  lemma NextStart(b: seq<Blk>, k: nat)
    requires Tiles(b) && k + 1 < |b|
    ensures b[k + 1].bp == b[k].bp + b[k].size
  {
    var x, y := b[k], b[k + 1];
    assert y.bp == x.bp + x.size;
  }

  lemma PlacedIs(b: seq<Blk>, k: nat, asize: nat)
    requires k < |b|
    ensures var x := b[k];
            Placed(b, k, asize) == Splice(b, k, k + 1,
              if x.size >= asize + OVERHEAD then [Blk(x.bp, asize, true)] + [Blk(x.bp + asize, x.size - asize, false)]
              else [Blk(x.bp, x.size, true)] + [])
  {
    assert [Blk(b[k].bp, b[k].size, true)] + [] == [Blk(b[k].bp, b[k].size, true)];
  }

  lemma WholeKept(m: seq<byte>, n: seq<byte>, b: seq<Blk>, k: nat, asize: nat)
    requires Tiles(b) && Tagged(m, b) && 0 < k < |b| - 1 && 8 <= b[k].size < asize + OVERHEAD
    requires Same(m, n, b[k].bp - WSIZE, b[k].bp + b[k].size - WSIZE) && TagsAt(n, Blk(b[k].bp, b[k].size, true))
    ensures b[k].bp + b[k].size - OVERHEAD <= |m| && Tagged(n, Placed(b, k, asize))
    ensures LiveOf(n, Placed(b, k, asize)) == LiveOf(m, b)[b[k].bp := n[b[k].bp..b[k].bp + b[k].size - OVERHEAD]]
  {
    hide Tiles, LiveOf, Tagged, Word, TagsAt, Same, Placed, Splice;
    NextStart(b, k);
    PlacedIs(b, k, asize);
    PlacedKept(m, n, b, k, Blk(b[k].bp, b[k].size, true), []);
  }

  lemma SplitKept(m: seq<byte>, m1: seq<byte>, m2: seq<byte>, n: seq<byte>, b: seq<Blk>, k: nat, asize: nat)
    requires Tiles(b) && Tagged(m, b) && 0 < k < |b| - 1 && 8 <= asize && b[k].size >= asize + OVERHEAD
    requires var bp, end := b[k].bp, b[k].bp + b[k].size;
             && Same(m, m1, bp - WSIZE, end - WSIZE)
             && Same(m1, m2, bp - WSIZE, bp + asize - WSIZE) && TagsAt(m2, Blk(bp, asize, true))
             && Same(m2, n, bp + asize - WSIZE, end - WSIZE) && TagsAt(n, Blk(bp + asize, b[k].size - asize, false))
    ensures b[k].bp + asize - OVERHEAD <= |m| && Tagged(n, Placed(b, k, asize))
    ensures LiveOf(n, Placed(b, k, asize)) == LiveOf(m, b)[b[k].bp := n[b[k].bp..b[k].bp + asize - OVERHEAD]]
  {
    hide Tiles, LiveOf, Tagged, Word, TagsAt, Same, Placed, Splice;
    var x, rest := Blk(b[k].bp, asize, true), [Blk(b[k].bp + asize, b[k].size - asize, false)];
    NextStart(b, k);
    Widen(m, m1, m2, n, b[k].bp - WSIZE, b[k].bp + asize - WSIZE, b[k].bp + b[k].size - WSIZE);
    TagsKept(m2, n, x, b[k].bp + asize - WSIZE, b[k].bp + b[k].size - WSIZE);
    PlacedKept(m, n, b, k, x, rest);
    PlacedIs(b, k, asize);
  }

  lemma EndsHeap(b: seq<Blk>)
    requires Tiles(b)
    ensures |b| >= 2 && b[0] == Blk(BASE, OVERHEAD, true) && b[|b| - 1].size == 0 && b[|b| - 1].alloc
  {
  }

  lemma Positive(b: seq<Blk>, k: nat)
    requires Tiles(b) && k < |b|
    ensures b[k].bp > 0
  {
    Aligned(b, k);
  }

  lemma StartsAt(b: seq<Blk>, k: nat)
    requires k < |b| - 1
    ensures Starts(b, b[k].bp)
  {
  }

  lemma StartIndex(b: seq<Blk>, p: nat) returns (k: nat)
    requires Tiles(b) && Starts(b, p)
    ensures k < |b| - 1 && b[k].bp == p && forall j :: 0 <= j < |b| && b[j].bp == p ==> j == k
  {
    k :| 0 <= k < |b| - 1 && b[k].bp == p;
    LaterStarts(b, k);
  }

  // The starts before the merged block, and its own, stay.
  lemma CoalescedStarts(b: seq<Blk>, k: nat)
    requires Tiles(b) && 0 < k < |b| - 1 && !b[k].alloc
    ensures var c, i := Coalesced(b, k), Lo(b, k);
            && i < |c| - 1 && !c[i].alloc && c[i].size >= b[k].size && c[|c| - 1] == b[|b| - 1]
            && forall j :: 0 <= j <= i ==> c[j].bp == b[j].bp
  {
    Spans(b, k);
  }

  lemma ExtendedLast(b: seq<Blk>, size: nat)
    requires |b| >= 2
    ensures |Extended(b, size)| >= 2 && Extended(b, size)[|Extended(b, size)| - 1].bp == b[|b| - 1].bp + size
  {
  }

  lemma ExtendedEnds(b: seq<Blk>, size: nat)
    requires |b| >= 2
    ensures var c, e := Extended(b, size), b[|b| - 1].bp;
            && |c| == |b| + 1 && c[|b| - 1] == Blk(e, size, false) && c[|b|] == Blk(e + size, 0, true)
            && forall j :: 0 <= j < |b| - 1 ==> c[j] == b[j]
  {
  }

  predicate FreeAt(b: seq<Blk>, p: nat, size: nat) {
    exists k :: 0 < k < |b| - 1 && b[k].bp == p && !b[k].alloc && b[k].size >= size
  }

  // No start before the old epilogue is lost by extending and coalescing.
  lemma StillOnChain(b: seq<Blk>, size: nat, k: nat, p: nat)
    requires Tiles(b) && Settled(b) && k == |b| - 1 && Starts(b, p) && size >= 8 && size % 8 == 0
    ensures var e := Extended(b, size);
            && Tiles(e) && SettledBut(e, k) && |e| == k + 2 && e[k] == Blk(b[k].bp, size, false)
            && var c := Coalesced(e, k);
               && 0 < Lo(e, k) < |c| && c[Lo(e, k)].bp > 0 && Starts(c, p) && FreeAt(c, c[Lo(e, k)].bp, size)
  {
    ExtendedFits(b, size);
    ExtendedEnds(b, size);
    var e := Extended(b, size);
    hide Coalesced, Extended;
    CoalescedStarts(e, k);
    Positive(e, Lo(e, k));
    var j :| 0 <= j < k && b[j].bp == p;
    assert Coalesced(e, k)[j].bp == p;
  }

  // The new epilogue is written past the new block.
  lemma Epilogue(m: seq<byte>, m1: seq<byte>, m2: seq<byte>, p: nat, size: nat)
    requires 8 <= p && size >= 8 && p + size <= |m|
    requires Same(m, m1, p - WSIZE, p + size - WSIZE) && TagsAt(m1, Blk(p, size, false))
    requires Same(m1, m2, p + size - WSIZE, p + size) && Word(m2, p + size - WSIZE) == Pack(0, true)
    ensures Same(m, m2, p - WSIZE, p + size) && TagsAt(m2, Blk(p, size, false)) && TagsAt(m2, Blk(p + size, 0, true))
  {
    TagsKept(m1, m2, Blk(p, size, false), p + size - WSIZE, p + size);
  }

  // A size_t passed where an int is expected.
  function AsInt(v: nat): int {
    if v < 0x8000_0000 then v else v - WORD
  }

  function EvenSize(words: nat): nat {
    (words + words % 2) * WSIZE
  }

  lemma EvenIs(words: nat)
    requires words > 0
    ensures EvenSize(words) % 8 == 0 && EvenSize(words) >= 8
  {
  }

  // The new block's tags and the new epilogue are all that is written, past the old heap.
  lemma ExtendedKept(m: seq<byte>, n: seq<byte>, b: seq<Blk>, size: nat)
    requires Tiles(b) && Tagged(m, b) && size >= 8
    requires var e := b[|b| - 1].bp;
             Same(m, n, e - WSIZE, e + size) && TagsAt(n, Blk(e, size, false)) && TagsAt(n, Blk(e + size, 0, true))
    ensures Tagged(n, Extended(b, size)) && LiveOf(n, Extended(b, size)) == LiveOf(m, b)
  {
    hide TagsAt, Word;
    var e, c := b[|b| - 1].bp, Extended(b, size);
    forall k | 0 <= k < |c| ensures TagsAt(n, c[k]) {
      if k < |b| - 1 {
        InOrder(b, k, |b| - 1);
        TagsKept(m, n, b[k], e - WSIZE, e + size);
      }
    }
    assert c[1..|c| - 1] == b[1..|b| - 1] + [Blk(e, size, false)];
    LiveConcat(n, b[1..|b| - 1], [Blk(e, size, false)]);
    LiveOne(n, Blk(e, size, false));
    forall k | 0 <= k < |b| - 1 ensures End(b[k]) <= e - WSIZE { InOrder(b, k, |b| - 1); }
    LiveSame(m, n, b[1..|b| - 1], e - WSIZE, e + size);
  }

  lemma SoundBreak(m: seq<byte>, b: seq<Blk>, brk: nat)
    requires Sound(m, b, brk)
    ensures |b| >= 2 && |m| < 0x8000_0000 && 8 <= brk <= |m| && b[|b| - 1].bp == brk
  {
    hide Tagged;
    Aligned(b, |b| - 1);
  }

  lemma ExtendedSound(m: seq<byte>, n: seq<byte>, b: seq<Blk>, brk: nat, size: nat)
    requires Sound(m, b, brk) && Settled(b) && size >= 8 && size % 8 == 0 && brk + size <= |n|
    requires brk >= WSIZE && Same(m, n, brk - WSIZE, brk + size)
    requires TagsAt(n, Blk(brk, size, false)) && TagsAt(n, Blk(brk + size, 0, true))
    ensures Sound(n, Extended(b, size), brk + size) && LiveOf(n, Extended(b, size)) == LiveOf(m, b)
  {
    hide Tiles, Tagged, TagsAt, Settled, SettledBut, Extended;
    ExtendedFits(b, size);
    ExtendedKept(m, n, b, size);
    ExtendedLast(b, size);
  }

  lemma SameSelf(m: seq<byte>)
    ensures forall lo: int, hi: int :: Same(m, m, lo, hi)
  {
  }

  lemma LastStays(b: seq<Blk>, k: nat)
    requires Tiles(b) && 0 < k < |b| - 1
    ensures |Coalesced(b, k)| >= 2 && Coalesced(b, k)[|Coalesced(b, k)| - 1] == b[|b| - 1]
    ensures 0 < Lo(b, k) < |Coalesced(b, k)| && Coalesced(b, k)[Lo(b, k)].bp == b[Lo(b, k)].bp
  {
    Spans(b, k);
  }
}
