/** What allocating, attaching, writing and freeing blocks keep. */
module FsSafety {
  import opened Memlib
  import opened FsBlocks

  function Zero(): Block {
    seq(BSIZE, _ => 0)
  }

  // Slots are the same, whatever else differs.
  ghost predicate SameSlots(v: Vol, w: Vol)
    requires Shaped(v) && Shaped(w)
  {
    |v.inodes| == |w.inodes|
    && forall i: nat, k: nat :: i < |v.inodes| && k < NSLOTS ==>
         Slot(w.blocks, w.inodes[i], k) == Slot(v.blocks, v.inodes[i], k)
  }

  lemma SameHolds(v: Vol, w: Vol)
    requires Shaped(v) && Shaped(w) && SameSlots(v, w)
    ensures forall i: nat, k: nat, b: nat :: Holds(w, i, k, b) <==> Holds(v, i, k, b)
  {
  }

  // Inodes alone decide slots, as long as no indirect block has changed.
  lemma IndirectsKept(v: Vol, w: Vol)
    requires Shaped(v) && Shaped(w) && w.inodes == v.inodes && |w.blocks| == |v.blocks|
    requires forall i: nat :: i < |v.inodes| && 0 < v.inodes[i].addrs[NDIRECT] < |v.blocks| ==>
               w.blocks[v.inodes[i].addrs[NDIRECT]] == v.blocks[v.inodes[i].addrs[NDIRECT]]
    ensures SameSlots(v, w)
  {
    hide Entry;
    forall i: nat, k: nat | i < |v.inodes| && k < NSLOTS
      ensures Slot(w.blocks, w.inodes[i], k) == Slot(v.blocks, v.inodes[i], k)
    {
      var a := v.inodes[i].addrs[NDIRECT];
      if 0 < a < |v.blocks| { assert w.blocks[a] == v.blocks[a]; }
    }
  }

  lemma IndirectHeld(v: Vol, i: nat)
    requires Owned(v) && i < |v.inodes| && v.inodes[i].addrs[NDIRECT] != 0
    ensures Holds(v, i, NDIRECT, v.inodes[i].addrs[NDIRECT])
    ensures v.sb.datastart <= v.inodes[i].addrs[NDIRECT] < v.sb.size
  {
    assert Holds(v, i, NDIRECT, v.inodes[i].addrs[NDIRECT]);
  }

  // ---- allocation ----

  /** balloc of b: its bit is set and its bytes are zero. */
  ghost function Allocated(v: Vol, b: nat): Vol
    requires Shaped(v) && b < v.sb.size && !BitSet(v, b)
  {
    var w := WithBit(v, b, true);
    w.(blocks := w.blocks[b := Zero()])
  }

  // b is marked, zero and nobody's yet.
  ghost predicate Loose(v: Vol, b: nat)
    requires Shaped(v)
  {
    && v.sb.datastart <= b < v.sb.size && BitSet(v, b) && v.blocks[b] == Zero()
    && forall i: nat, k: nat :: !Holds(v, i, k, b)
  }

  ghost predicate SameBytes(v: Vol, w: Vol)
    requires Shaped(v) && Shaped(w)
  {
    |v.inodes| == |w.inodes|
    && forall i: nat, off: nat :: i < |v.inodes| && off < MAXFILE * BSIZE ==>
         ByteAt(w.blocks, w.inodes[i], off) == ByteAt(v.blocks, v.inodes[i], off)
  }

  lemma AllocatedBits(v: Vol, b: nat, c: nat)
    requires Owned(v) && b < v.sb.size && !BitSet(v, b) && c < v.sb.size
    ensures b >= v.sb.datastart && Shaped(Allocated(v, b))
    ensures BitSet(Allocated(v, b), c) == (c == b || BitSet(v, c))
  {
    hide BitIn, PutBit;
    WithBitSets(v, b, true, c);
  }

  lemma AllocatedSlots(v: Vol, b: nat)
    requires Owned(v) && b < v.sb.size && !BitSet(v, b)
    ensures Shaped(Allocated(v, b)) && SameSlots(v, Allocated(v, b))
    ensures forall i: nat, k: nat :: !Holds(v, i, k, b)
  {
    hide BitIn, PutBit, Slot, SameSlots, Holds;
    var w := Allocated(v, b);
    AllocatedBits(v, b, b);
    forall i: nat | i < |v.inodes| && 0 < v.inodes[i].addrs[NDIRECT] < |v.blocks|
      ensures w.blocks[v.inodes[i].addrs[NDIRECT]] == v.blocks[v.inodes[i].addrs[NDIRECT]]
    {
      IndirectHeld(v, i);
    }
    IndirectsKept(v, w);
  }

  /** Allocation keeps ownership and every byte of every file. */
  lemma AllocationKeeps(v: Vol, b: nat)
    requires Good(v) && b < v.sb.size && !BitSet(v, b)
    ensures var w := Allocated(v, b); Good(w) && SameSlots(v, w) && SameBytes(v, w) && Loose(w, b)
  {
    hide BitSet, Slot, Holds, WithBit;
    var w := Allocated(v, b);
    AllocatedData(v, b);
    AllocatedSlots(v, b);
    SameHolds(v, w);
    forall c: nat | c < v.sb.size ensures BitSet(w, c) == (c == b || BitSet(v, c)) { AllocatedBits(v, b, c); }
    AllocatedBits(v, b, b);
    forall i: nat, off: nat | i < |v.inodes| && off < MAXFILE * BSIZE
      ensures ByteAt(w.blocks, w.inodes[i], off) == ByteAt(v.blocks, v.inodes[i], off)
    {
      ByteKept(v, w, i, off, b);
    }
  }

  // Data blocks other than b are as they were.
  lemma AllocatedData(v: Vol, b: nat)
    requires Owned(v) && b < v.sb.size && !BitSet(v, b)
    ensures var w := Allocated(v, b);
            && |w.blocks| == |v.blocks| && w.inodes == v.inodes && w.sb == v.sb && w.blocks[b] == Zero()
            && forall c: nat :: v.sb.datastart <= c < v.sb.size && c != b ==> w.blocks[c] == v.blocks[c]
  {
    hide BitIn, PutBit;
  }

  lemma ByteKept(v: Vol, w: Vol, i: nat, off: nat, b: nat)
    requires Shaped(v) && Shaped(w) && Marked(v) && SameSlots(v, w) && i < |v.inodes| && off < MAXFILE * BSIZE
    requires v.sb == w.sb && forall k: nat :: !Holds(v, i, k, b)
    requires forall c: nat :: v.sb.datastart <= c < v.sb.size && c != b ==> w.blocks[c] == v.blocks[c]
    ensures ByteAt(w.blocks, w.inodes[i], off) == ByteAt(v.blocks, v.inodes[i], off)
  {
    var k := SlotOf(off / BSIZE);
    var c := Slot(v.blocks, v.inodes[i], k);
    hide Slot;
    if c != 0 { assert Holds(v, i, k, c); }
  }

  // ---- attaching a loose block ----

  // Slot k of inode i now holds b.
  ghost predicate Attached(v: Vol, w: Vol, i: nat, k: nat, b: nat)
    requires Shaped(v) && Shaped(w)
  {
    && |w.inodes| == |v.inodes| && w.sb == v.sb && i < |v.inodes| && k < NSLOTS
    && (forall j: nat, l: nat :: j < |v.inodes| && l < NSLOTS ==>
          Slot(w.blocks, w.inodes[j], l) == if j == i && l == k then b else Slot(v.blocks, v.inodes[j], l))
    && (forall j: nat :: j < |v.inodes| ==> w.inodes[j].size == v.inodes[j].size)
    && (forall c: nat :: c < v.sb.size ==> BitSet(w, c) == BitSet(v, c))
  }

  lemma AttachedOwned(v: Vol, w: Vol, i: nat, k: nat, b: nat)
    requires Owned(v) && Shaped(w) && Attached(v, w, i, k, b) && Loose(v, b) && Slot(v.blocks, v.inodes[i], k) == 0
    ensures Owned(w)
  {
    hide BitSet, Slot;
    forall j: nat, l: nat, c: nat | Holds(w, j, l, c) ensures w.sb.datastart <= c < w.sb.size && BitSet(w, c) {
      if !(j == i && l == k) { assert Holds(v, j, l, c); }
    }
    forall j: nat, l: nat, x: nat, y: nat, c: nat | Holds(w, j, l, c) && Holds(w, x, y, c) ensures j == x && l == y {
      if !(j == i && l == k) { assert Holds(v, j, l, c); }
      if !(x == i && y == k) { assert Holds(v, x, y, c); }
    }
  }

  lemma AttachedNoHoles(v: Vol, w: Vol, i: nat, k: nat, b: nat)
    requires Shaped(v) && NoHoles(v) && Shaped(w) && Attached(v, w, i, k, b) && b != 0
    ensures NoHoles(w)
  {
    hide BitSet, Slot;
  }

  // Attaching a zero block shows nothing new, and the blocks other than indirect ones are as they were.
  lemma AttachedBytes(v: Vol, w: Vol, i: nat, k: nat, b: nat, x: nat)
    requires Owned(v) && Shaped(w) && Attached(v, w, i, k, b) && Loose(v, b) && Slot(v.blocks, v.inodes[i], k) == 0
    requires |w.blocks| == |v.blocks| && forall c: nat :: c < |v.blocks| && c != x ==> w.blocks[c] == v.blocks[c]
    requires x == 0 || x == v.inodes[i].addrs[NDIRECT]
    requires x != b
    ensures SameBytes(v, w)
  {
    hide BitSet, Slot;
    if x != 0 {
      IndirectAt(v, i);
      assert Holds(v, i, NDIRECT, x);
    }
    forall j: nat, off: nat | j < |v.inodes| && off < MAXFILE * BSIZE
      ensures ByteAt(w.blocks, w.inodes[j], off) == ByteAt(v.blocks, v.inodes[j], off)
    {
      var l := SlotOf(off / BSIZE);
      var c := Slot(v.blocks, v.inodes[j], l);
      if c != 0 {
        assert Holds(v, j, l, c);
      }
    }
  }

  lemma IndirectAt(v: Vol, i: nat)
    requires Shaped(v) && i < |v.inodes|
    ensures Slot(v.blocks, v.inodes[i], NDIRECT) == v.inodes[i].addrs[NDIRECT]
  {
  }

  /** Block b entered in the inode, as a direct block or as the indirect one. */
  function SetAddr(v: Vol, i: nat, k: nat, b: nat): Vol
    requires i < |v.inodes| && k < |v.inodes[i].addrs|
  {
    v.(inodes := v.inodes[i := v.inodes[i].(addrs := v.inodes[i].addrs[k := b])])
  }

  lemma SetAddrAttaches(v: Vol, i: nat, k: nat, b: nat)
    requires Owned(v) && i < |v.inodes| && k <= NDIRECT && Loose(v, b) && v.inodes[i].addrs[k] == 0
    ensures Shaped(SetAddr(v, i, k, b)) && Attached(v, SetAddr(v, i, k, b), i, k, b)
  {
    hide BitIn, Entry;
    var w := SetAddr(v, i, k, b);
    if k == NDIRECT {
      forall j: nat | j < NINDIRECT ensures Entry(v.blocks[b], j) == 0 { ZeroEntry(j); }
    }
  }

  lemma ZeroEntry(j: nat)
    requires j < NINDIRECT
    ensures Entry(Zero(), j) == 0
  {
  }

  // a[j] = b in an indirect block.
  function PutEntry(x: Block, j: nat, b: nat): Block
    requires j < NINDIRECT && b < WORD
  {
    x[4 * j := Byte(b, 0)][4 * j + 1 := Byte(b, 1)][4 * j + 2 := Byte(b, 2)][4 * j + 3 := Byte(b, 3)]
  }

  lemma PutEntryAt(x: Block, j: nat, b: nat, l: nat)
    requires j < NINDIRECT && b < WORD && l < NINDIRECT
    ensures Entry(PutEntry(x, j, b), l) == if l == j then b else Entry(x, l)
  {
    BytesOfWord(b);
    hide Byte;
  }

  function SetEntry(v: Vol, a: nat, j: nat, b: nat): Vol
    requires a < |v.blocks| && j < NINDIRECT && b < WORD
  {
    v.(blocks := v.blocks[a := PutEntry(v.blocks[a], j, b)])
  }

  lemma SetEntryAttaches(v: Vol, i: nat, j: nat, b: nat)
    requires Owned(v) && i < |v.inodes| && j < NINDIRECT && Loose(v, b)
    requires 0 < v.inodes[i].addrs[NDIRECT] < v.sb.size
    ensures var w := SetEntry(v, v.inodes[i].addrs[NDIRECT], j, b);
            Shaped(w) && Attached(v, w, i, NDIRECT + 1 + j, b)
  {
    hide BitIn, Entry, PutEntry;
    var a := v.inodes[i].addrs[NDIRECT];
    var w := SetEntry(v, a, j, b);
    IndirectHeld(v, i);
    forall x: nat, l: nat | x < |v.inodes| && l < NSLOTS
      ensures Slot(w.blocks, w.inodes[x], l) ==
              if x == i && l == NDIRECT + 1 + j then b else Slot(v.blocks, v.inodes[x], l)
    {
      if l > NDIRECT { PutEntryAt(v.blocks[a], j, b, l - NDIRECT - 1); }
      if v.inodes[x].addrs[NDIRECT] == a && x != i { IndirectHeld(v, x); }
    }
  }

  // ---- writing data ----

  /** log_write of new bytes for data block bn of inode i. */
  function Written(v: Vol, b: nat, x: Block): Vol
    requires b < |v.blocks|
  {
    v.(blocks := v.blocks[b := x])
  }

  lemma WrittenSlots(v: Vol, i: nat, bn: nat, b: nat, x: Block)
    requires Owned(v) && bn < MAXFILE && Holds(v, i, SlotOf(bn), b)
    ensures b < |v.blocks| && Shaped(Written(v, b, x)) && SameSlots(v, Written(v, b, x))
    ensures forall c: nat :: c < v.sb.size ==> BitSet(Written(v, b, x), c) == BitSet(v, c)
  {
    hide BitIn, Slot, SameSlots;
    var w := Written(v, b, x);
    forall j: nat | j < |v.inodes| && 0 < v.inodes[j].addrs[NDIRECT] < |v.blocks|
      ensures w.blocks[v.inodes[j].addrs[NDIRECT]] == v.blocks[v.inodes[j].addrs[NDIRECT]]
    {
      IndirectHeld(v, j);
    }
    IndirectsKept(v, w);
  }

  predicate RewrittenByte(v: Vol, w: Vol, i: nat, bn: nat, x: Block, j: nat, off: nat) {
    && j < |v.inodes| == |w.inodes| && off < MAXFILE * BSIZE
    && |v.inodes[j].addrs| == |w.inodes[j].addrs| == NDIRECT + 1
    && ByteAt(w.blocks, w.inodes[j], off) ==
       if j == i && off / BSIZE == bn then x[off % BSIZE] else ByteAt(v.blocks, v.inodes[j], off)
  }

  // The bytes of block bn of inode i are those of x, and no others have changed.
  ghost predicate Rewritten(v: Vol, w: Vol, i: nat, bn: nat, x: Block) {
    forall j: nat, off: nat :: j < |v.inodes| && off < MAXFILE * BSIZE ==> RewrittenByte(v, w, i, bn, x, j, off)
  }

  lemma RewrittenAt(v: Vol, i: nat, bn: nat, b: nat, x: Block, j: nat, off: nat)
    requires Owned(v) && bn < MAXFILE && Holds(v, i, SlotOf(bn), b) && j < |v.inodes| && off < MAXFILE * BSIZE
    ensures b < |v.blocks| && RewrittenByte(v, Written(v, b, x), i, bn, x, j, off)
  {
    hide BitSet, Slot, SameSlots;
    WrittenSlots(v, i, bn, b, x);
    var l := SlotOf(off / BSIZE);
    SlotKept(v, Written(v, b, x), j, l);
    var c := Slot(v.blocks, v.inodes[j], l);
    if c != 0 { assert Holds(v, j, l, c); }
  }

  /** Writing a data block keeps ownership and changes the bytes of that block of that file only. */
  lemma WriteKeeps(v: Vol, i: nat, bn: nat, b: nat, x: Block)
    requires Good(v) && bn < MAXFILE && Holds(v, i, SlotOf(bn), b)
    ensures b < |v.blocks| && Good(Written(v, b, x))
    ensures Rewritten(v, Written(v, b, x), i, bn, x)
  {
    hide BitSet, Slot, SameSlots;
    var w := Written(v, b, x);
    WrittenSlots(v, i, bn, b, x);
    SlotsHold(v, w);
    forall j: nat, off: nat | j < |v.inodes| && off < MAXFILE * BSIZE ensures RewrittenByte(v, w, i, bn, x, j, off)
    {
      RewrittenAt(v, i, bn, b, x, j, off);
    }
    forall j: nat, n: nat | j < |v.inodes| && n < MAXFILE && n * BSIZE < v.inodes[j].size
      ensures Slot(w.blocks, w.inodes[j], SlotOf(n)) != 0
    {
      SlotKept(v, w, j, SlotOf(n));
    }
  }

  lemma SlotKept(v: Vol, w: Vol, j: nat, l: nat)
    requires Shaped(v) && Shaped(w) && SameSlots(v, w) && j < |v.inodes| && l < NSLOTS
    ensures j < |w.inodes| && Slot(w.blocks, w.inodes[j], l) == Slot(v.blocks, v.inodes[j], l)
  {
  }

  lemma SlotsHold(v: Vol, w: Vol)
    requires Shaped(v) && Shaped(w) && SameSlots(v, w)
    ensures forall i: nat, k: nat, b: nat :: Holds(w, i, k, b) <==> Holds(v, i, k, b)
  {
    SameHolds(v, w);
  }

  // ---- sizes ----

  function SetSize(v: Vol, i: nat, size: nat): Vol
    requires i < |v.inodes|
  {
    v.(inodes := v.inodes[i := v.inodes[i].(size := size)])
  }

  lemma SetSizeKeeps(v: Vol, i: nat, size: nat)
    requires Good(v) && i < |v.inodes| && size <= MAXFILE * BSIZE
    requires forall n: nat :: n < MAXFILE && n * BSIZE < size ==> Slot(v.blocks, v.inodes[i], SlotOf(n)) != 0
    ensures Good(SetSize(v, i, size)) && SameBytes(v, SetSize(v, i, size))
  {
    var w := SetSize(v, i, size);
    SameHolds(v, w);
    hide Slot, BitSet;
    forall j: nat, l: nat | j < |v.inodes| && l < NSLOTS
      ensures Slot(w.blocks, w.inodes[j], l) == Slot(v.blocks, v.inodes[j], l)
    {
      SameAddrs(v.blocks, v.inodes[j], w.inodes[j], l);
    }
    SameBits(v, w);
  }

  lemma SameAddrs(blocks: seq<Block>, a: Inode, b: Inode, l: nat)
    requires a.addrs == b.addrs && |a.addrs| == NDIRECT + 1 && l < NSLOTS
    ensures Slot(blocks, a, l) == Slot(blocks, b, l)
  {
  }

  lemma SameBits(v: Vol, w: Vol)
    requires Shaped(v) && Shaped(w) && v.blocks == w.blocks && v.sb == w.sb
    ensures forall c: nat :: c < v.sb.size ==> BitSet(w, c) == BitSet(v, c)
  {
  }

  // ---- growing ----

  /** What bmap may change: nothing, or slots that were empty; no byte of any file. */
  ghost predicate Grown(v: Vol, w: Vol) {
    && Shaped(v) && Shaped(w) && w.sb == v.sb && |w.inodes| == |v.inodes| && SameBytes(v, w)
    && (forall i: nat :: i < |v.inodes| ==> w.inodes[i].size == v.inodes[i].size)
    && (forall i: nat, k: nat :: i < |v.inodes| && k < NSLOTS && Slot(v.blocks, v.inodes[i], k) != 0 ==>
          Slot(w.blocks, w.inodes[i], k) == Slot(v.blocks, v.inodes[i], k))
  }

  lemma GrownSelf(v: Vol)
    requires Shaped(v)
    ensures Grown(v, v)
  {
  }

  lemma GrownTwice(u: Vol, v: Vol, w: Vol)
    requires Grown(u, v) && Grown(v, w)
    ensures Grown(u, w)
  {
    hide Slot, ByteAt;
    forall i: nat, off: nat | i < |u.inodes| && off < MAXFILE * BSIZE
      ensures ByteAt(w.blocks, w.inodes[i], off) == ByteAt(u.blocks, u.inodes[i], off)
    {
      assert ByteAt(v.blocks, v.inodes[i], off) == ByteAt(u.blocks, u.inodes[i], off);
    }
  }

  lemma AllocationGrows(v: Vol, b: nat)
    requires Good(v) && b < v.sb.size && !BitSet(v, b)
    ensures var w := Allocated(v, b);
            && Good(w) && Grown(v, w) && Loose(w, b) && w.inodes == v.inodes && b >= v.sb.datastart && SameSlots(v, w)
  {
    AllocationKeeps(v, b);
    AllocatedBits(v, b, b);
  }

  /** A loose block put into an empty direct slot, or made the indirect block. */
  lemma SetAddrGrows(v: Vol, i: nat, k: nat, b: nat)
    requires Good(v) && i < |v.inodes| && k <= NDIRECT && Loose(v, b) && v.inodes[i].addrs[k] == 0
    ensures var w := SetAddr(v, i, k, b);
            && Good(w) && Grown(v, w) && w.blocks == v.blocks && w.inodes[i].addrs == v.inodes[i].addrs[k := b]
            && Slot(w.blocks, w.inodes[i], k) == b
  {
    hide BitSet;
    var w := SetAddr(v, i, k, b);
    SetAddrAttaches(v, i, k, b);
    AttachedOwned(v, w, i, k, b);
    AttachedNoHoles(v, w, i, k, b);
    AttachedBytes(v, w, i, k, b, 0);
    hide Slot;
  }

  /** A loose block put into an empty entry of the indirect block. */
  lemma SetEntryGrows(v: Vol, i: nat, j: nat, b: nat)
    requires Good(v) && i < |v.inodes| && j < NINDIRECT && Loose(v, b)
    requires 0 < v.inodes[i].addrs[NDIRECT] < v.sb.size && Slot(v.blocks, v.inodes[i], NDIRECT + 1 + j) == 0
    ensures var w := SetEntry(v, v.inodes[i].addrs[NDIRECT], j, b);
            Good(w) && Grown(v, w) && Slot(w.blocks, w.inodes[i], NDIRECT + 1 + j) == b
  {
    hide BitSet, Slot;
    var a, k := v.inodes[i].addrs[NDIRECT], NDIRECT + 1 + j;
    var w := SetEntry(v, a, j, b);
    SetEntryAttaches(v, i, j, b);
    AttachedOwned(v, w, i, k, b);
    AttachedNoHoles(v, w, i, k, b);
    IndirectHeld(v, i);
    assert Holds(v, i, NDIRECT, a);
    AttachedBytes(v, w, i, k, b, a);
  }

  // ---- truncation ----

  /** w is v with the blocks of the slots in done of inode i freed, and nothing else. */
  ghost predicate Freeing(v: Vol, w: Vol, i: nat, done: set<nat>) {
    && Shaped(v) && Shaped(w) && w.sb == v.sb && |w.inodes| == |v.inodes|
    && (forall j: nat :: j < |v.inodes| && j != i ==> w.inodes[j] == v.inodes[j])
    && (forall c: nat :: v.sb.datastart <= c < v.sb.size ==> w.blocks[c] == v.blocks[c])
    && (forall c: nat :: c < v.sb.size ==> (BitSet(w, c) <==> BitSet(v, c) && Unfreed(v, i, done, c)))
  }

  ghost predicate Unfreed(v: Vol, i: nat, done: set<nat>, c: nat)
    requires Shaped(v)
  {
    forall k: nat :: k in done ==> !Holds(v, i, k, c)
  }

  lemma FreeingStarts(v: Vol, i: nat)
    requires Shaped(v)
    ensures Freeing(v, v, i, {})
  {
  }

  /** The block of a slot not yet freed is still marked, so freeing it does not panic. */
  lemma FreeStep(v: Vol, w: Vol, i: nat, done: set<nat>, k: nat)
    requires Owned(v) && Freeing(v, w, i, done) && i < |v.inodes| && k < NSLOTS && k !in done
    ensures var b := Slot(v.blocks, v.inodes[i], k);
            if b == 0 then Freeing(v, w, i, done + {k})
            else v.sb.datastart <= b < v.sb.size && BitSet(w, b) && Freeing(v, WithBit(w, b, false), i, done + {k})
  {
    hide Slot, BitSet, WithBit;
    var b := Slot(v.blocks, v.inodes[i], k);
    if b == 0 {
      forall c: nat | c < v.sb.size
        ensures Unfreed(v, i, done + {k}, c) <==> Unfreed(v, i, done, c)
      {
        Adding(v, i, done, k, c);
      }
    } else {
      assert Holds(v, i, k, b);
      assert Unfreed(v, i, done, b) by {
        forall l: nat | l in done ensures !Holds(v, i, l, b) { }
      }
      var u := WithBit(w, b, false);
      OnlyBits(w, b, false);
      forall c: nat | c < v.sb.size ensures BitSet(u, c) <==> BitSet(v, c) && Unfreed(v, i, done + {k}, c) {
        WithBitSets(w, b, false, c);
        Adding(v, i, done, k, c);
      }
    }
  }

  lemma Adding(v: Vol, i: nat, done: set<nat>, k: nat, c: nat)
    requires Shaped(v)
    ensures Unfreed(v, i, done + {k}, c) <==> Unfreed(v, i, done, c) && !Holds(v, i, k, c)
  {
    hide Holds;
    if Unfreed(v, i, done + {k}, c) {
      assert k in done + {k};
      forall l: nat | l in done ensures !Holds(v, i, l, c) { assert l in done + {k}; }
    }
  }

  lemma OnlyBits(v: Vol, b: nat, on: bool)
    requires Shaped(v) && b < v.sb.size && BitSet(v, b) != on
    ensures var w := WithBit(v, b, on);
            && Shaped(w) && w.sb == v.sb && w.inodes == v.inodes
            && forall c: nat :: v.sb.datastart <= c < v.sb.size ==> w.blocks[c] == v.blocks[c]
  {
    hide BitIn, PutBit;
  }

  function Below(n: nat): (s: set<nat>)
    ensures forall k: nat :: k in s <==> k < n
  {
    if n == 0 then {} else Below(n - 1) + {n - 1}
  }

  /** itrunc: inode i holds nothing and is empty, and exactly its blocks have been freed. */
  ghost predicate Truncated(v: Vol, w: Vol, i: nat) {
    && i < |v.inodes| && Freeing(v, w, i, Below(NSLOTS))
    && w.inodes[i] == Inode(seq(NDIRECT + 1, _ => 0), 0)
  }

  /** Truncation keeps ownership, and every other file. */
  lemma TruncationKeeps(v: Vol, w: Vol, i: nat)
    requires Good(v) && Truncated(v, w, i)
    ensures Good(w) && File(w, i) == []
    ensures forall j: nat :: j < |v.inodes| && j != i ==> File(w, j) == File(v, j)
  {
    hide BitSet, Slot;
    forall j: nat, k: nat | j < |v.inodes| && k < NSLOTS
      ensures Slot(w.blocks, w.inodes[j], k) == if j == i then 0 else Slot(v.blocks, v.inodes[j], k)
    {
      TruncatedSlot(v, w, i, j, k);
    }
    forall j: nat, k: nat, b: nat | Holds(w, j, k, b) ensures Holds(v, j, k, b) && j != i { }
    forall j: nat, k: nat, b: nat | Holds(w, j, k, b) ensures w.sb.datastart <= b < w.sb.size && BitSet(w, b) {
      assert Holds(v, j, k, b) && BitSet(v, b);
      forall l: nat | l < NSLOTS ensures !Holds(v, i, l, b) { }
    }
    forall b: nat | b < w.sb.datastart ensures BitSet(w, b) {
      assert BitSet(v, b);
      forall l: nat | l < NSLOTS ensures !Holds(v, i, l, b) { }
    }
    forall j: nat | j < |v.inodes| && j != i ensures File(w, j) == File(v, j) {
      forall off: nat | off < v.inodes[j].size
        ensures ByteAt(w.blocks, w.inodes[j], off) == ByteAt(v.blocks, v.inodes[j], off)
      {
        var k := SlotOf(off / BSIZE);
        var b := Slot(v.blocks, v.inodes[j], k);
        if b != 0 { assert Holds(v, j, k, b); }
      }
    }
  }

  lemma TruncatedSlot(v: Vol, w: Vol, i: nat, j: nat, k: nat)
    requires Owned(v) && Truncated(v, w, i) && j < |v.inodes| && k < NSLOTS
    ensures Slot(w.blocks, w.inodes[j], k) == if j == i then 0 else Slot(v.blocks, v.inodes[j], k)
  {
    hide BitSet, Entry;
    var a := v.inodes[j].addrs[NDIRECT];
    if j != i && a != 0 { IndirectHeld(v, j); }
  }
}
