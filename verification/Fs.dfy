/** fs.c: block allocation, block maps, truncation, and reading and writing files. */
module Fs {
  import opened Basics
  import opened Memlib
  import opened Bits
  import opened FsBlocks
  import opened FsSafety

  // Which byte and bit of its bitmap block a bit lives in.
  lemma BitPlace(b: nat, bi: nat)
    requires b % BPB == 0 && bi < BPB
    ensures (b + bi) / BPB == b / BPB && (b + bi) % BPB == bi && (b + bi) % 8 == bi % 8
  {
  }

  ghost predicate AllSet(v: Vol)
    requires Shaped(v)
  {
    forall c: nat :: c < v.sb.size ==> BitSet(v, c)
  }

  class FileSystem {
    var v: Vol

    constructor (v0: Vol)
      ensures v == v0
    {
      v := v0;
    }

    /** balloc: the first free block, marked and zeroed; 0 stands for the panic, which needs every
        block to be in use. */
    method Balloc() returns (r: nat)
      requires Good(v)
      modifies this
      ensures r == 0 ==> v == old(v) && AllSet(v)
      ensures r != 0 ==> r < old(v).sb.size && !BitSet(old(v), r) && v == Allocated(old(v), r)
      ensures r != 0 ==> forall c: nat :: c < r ==> BitSet(old(v), c)
    {
      hide BitOf, Marked, Single, NoHoles;
      var b := 0;
      while b < v.sb.size
        invariant b % BPB == 0 && v == old(v)
        invariant forall c: nat :: c < b && c < v.sb.size ==> BitSet(v, c)
      {
        var bp := v.blocks[v.sb.BBlock(b)];
        var bi := 0;
        while bi < BPB && b + bi < v.sb.size
          invariant bi <= BPB && v == old(v)
          invariant forall c: nat :: c < b + bi && c < v.sb.size ==> BitSet(v, c)
        {
          BitPlace(b, bi);
          if !BitOf(bp[bi / 8], bi % 8) {
            assert !BitSet(v, b + bi);
            Claim(b, bi);
            return b + bi;
          }
          bi := bi + 1;
        }
        b := b + BPB;
      }
      return 0;
    }

    // The bit is set and the block zeroed.
    method Claim(b: nat, bi: nat)
      requires Shaped(v) && b % BPB == 0 && bi < BPB && b + bi < v.sb.size && !BitSet(v, b + bi)
      modifies this
      ensures v == Allocated(old(v), b + bi)
    {
      hide BitOf, SetBit;
      BitPlace(b, bi);
      var bp := v.blocks[v.sb.BBlock(b)];
      bp := bp[bi / 8 := SetBit(bp[bi / 8], bi % 8)];
      v := v.(blocks := v.blocks[v.sb.BBlock(b) := bp]);
      v := v.(blocks := v.blocks[b + bi := Zero()]);
    }

    /** bfree: clears the bit of b; panics exactly when it is clear already. */
    method Bfree(b: nat) returns (panicked: bool)
      requires Shaped(v) && b < v.sb.size
      modifies this
      ensures panicked <==> !BitSet(old(v), b)
      ensures v == if panicked then old(v) else WithBit(old(v), b, false)
    {
      hide BitOf;
      var bp := v.blocks[v.sb.BBlock(b)];
      var bi := b % BPB;
      BitPlace(b - bi, bi);
      if !BitOf(bp[bi / 8], bi % 8) {
        return true;
      }
      bp := bp[bi / 8 := ClearBit(bp[bi / 8], bi % 8)];
      v := v.(blocks := v.blocks[v.sb.BBlock(b) := bp]);
      panicked := false;
    }

    // bmap's entry j of the indirect block a.
    method BmapEntry(i: nat, j: nat, a: nat) returns (addr: nat)
      requires Good(v) && i < |v.inodes| && j < NINDIRECT && a == v.inodes[i].addrs[NDIRECT] != 0
      modifies this
      ensures Good(v) && Grown(old(v), v)
      ensures addr == 0 ==> AllSet(v)
      ensures addr != 0 ==> Holds(v, i, NDIRECT + 1 + j, addr)
      ensures Slot(old(v).blocks, old(v).inodes[i], NDIRECT + 1 + j) != 0 ==>
                v == old(v) && addr == Slot(v.blocks, v.inodes[i], NDIRECT + 1 + j)
    {
      hide Grown, AllSet, BitSet, Loose, SameSlots, Entry, Marked, Single, NoHoles, MetaMarked;
      GrownSelf(v);
      IndirectHeld(v, i);
      addr := Entry(v.blocks[a], j);
      if addr == 0 {
        addr := Balloc();
        if addr == 0 {
          return 0;
        }
        ghost var w := v;
        AllocationGrows(old(v), addr);
        SlotKept(old(v), w, i, NDIRECT + 1 + j);
        v := SetEntry(v, a, j, addr);
        SetEntryGrows(w, i, j, addr);
        GrownTwice(old(v), w, v);
      }
    }

    /** bmap: the block of the file's block bn, allocating what is missing; 0 stands for a panic,
        which needs bn to be out of range or every block to be in use. */
    method Bmap(i: nat, bn: nat) returns (addr: nat)
      requires Good(v) && i < |v.inodes|
      modifies this
      ensures Good(v) && Grown(old(v), v)
      ensures addr == 0 ==> bn >= MAXFILE || AllSet(v)
      ensures addr != 0 ==> bn < MAXFILE && Holds(v, i, SlotOf(bn), addr)
      ensures bn < MAXFILE && Slot(old(v).blocks, old(v).inodes[i], SlotOf(bn)) != 0 ==>
                v == old(v) && addr == Slot(v.blocks, v.inodes[i], SlotOf(bn))
    {
      hide Good, Grown, AllSet, BitSet, Loose, SameSlots;
      GoodShape(v);
      GrownSelf(v);
      if bn < NDIRECT {
        addr := v.inodes[i].addrs[bn];
        if addr == 0 {
          addr := Balloc();
          if addr == 0 {
            return 0;
          }
          ghost var w := v;
          AllocationGrows(old(v), addr);
          GoodShape(w);
          v := SetAddr(v, i, bn, addr);
          SetAddrGrows(w, i, bn, addr);
          GrownTwice(old(v), w, v);
        }
        return addr;
      }
      var j := bn - NDIRECT;
      if j < NINDIRECT {
        addr := v.inodes[i].addrs[NDIRECT];
        if addr == 0 {
          addr := Balloc();
          if addr == 0 {
            return 0;
          }
          ghost var w := v;
          AllocationGrows(old(v), addr);
          GoodShape(w);
          v := SetAddr(v, i, NDIRECT, addr);
          SetAddrGrows(w, i, NDIRECT, addr);
          GrownTwice(old(v), w, v);
        }
        ghost var u := v;
        addr := BmapEntry(i, j, addr);
        GrownTwice(old(v), u, v);
        return addr;
      }
      return 0;
    }

    // The loop over the direct blocks.
    method FreeDirects(i: nat, ghost v0: Vol) returns (panicked: bool)
      requires Good(v0) && v == v0 && i < |v.inodes|
      modifies this
      ensures !panicked && Freeing(v0, v, i, Below(NDIRECT))
      ensures i < |v.inodes| == |v0.inodes| && |v.inodes[i].addrs| == NDIRECT + 1
      ensures v.inodes[i].addrs[NDIRECT] == v0.inodes[i].addrs[NDIRECT]
      ensures forall l :: 0 <= l < NDIRECT ==> v.inodes[i].addrs[l] == 0
    {
      hide Freeing, Good, Entry, WithBit, BitSet;
      GoodShape(v0);
      panicked := false;
      FreeingStarts(v0, i);
      var k: nat := 0;
      while k < NDIRECT
        invariant 0 <= k <= NDIRECT && Freeing(v0, v, i, Below(k)) && i < |v.inodes|
        invariant |v.inodes| == |v0.inodes| && |v.inodes[i].addrs| == NDIRECT + 1
        invariant forall l :: k <= l <= NDIRECT ==> v.inodes[i].addrs[l] == v0.inodes[i].addrs[l]
        invariant forall l :: 0 <= l < k ==> v.inodes[i].addrs[l] == 0
      {
        StepDone(v0, v, i, Below(k), k);
        var b := v.inodes[i].addrs[k];
        if b != 0 {
          panicked := Bfree(b);
          if panicked {
            return;
          }
          ghost var w := v;
          v := SetAddr(v, i, k, 0);
          OwnAddrs(v0, w, i, Below(k + 1), v.inodes[i]);
        }
        k := k + 1;
      }
    }

    // The loop over the indirect block's entries.
    method FreeEntries(i: nat, x: Block, ghost v0: Vol) returns (panicked: bool)
      requires Good(v0) && i < |v0.inodes| && Freeing(v0, v, i, Below(NDIRECT))
      requires 0 < v0.inodes[i].addrs[NDIRECT] < v0.sb.size && x == v0.blocks[v0.inodes[i].addrs[NDIRECT]]
      modifies this
      ensures !panicked && v.inodes == old(v.inodes) && Freeing(v0, v, i, EntriesBelow(NSLOTS))
    {
      hide Freeing, Good, Entry, WithBit, BitSet, EntriesBelow, Below;
      panicked := false;
      NoEntriesYet();
      var j: nat := 0;
      while j < NINDIRECT
        invariant 0 <= j <= NINDIRECT && v.inodes == old(v.inodes) && Freeing(v0, v, i, EntriesBelow(NDIRECT + 1 + j))
      {
        NextEntry(NDIRECT + 1 + j);
        StepDone(v0, v, i, EntriesBelow(NDIRECT + 1 + j), NDIRECT + 1 + j);
        var b := Entry(x, j);
        if b != 0 {
          panicked := Bfree(b);
          if panicked {
            return;
          }
        }
        j := j + 1;
      }
    }

    /** itrunc: frees exactly the blocks the inode holds; bfree's panic does not happen. */
    method Itrunc(i: nat) returns (panicked: bool)
      requires Good(v) && i < |v.inodes|
      modifies this
      ensures !panicked && Truncated(old(v), v, i)
    {
      hide Freeing, Good, Entry, WithBit;
      ghost var v0 := v;
      GoodShape(v0);
      panicked := false;
      panicked := FreeDirects(i, v0);
      if panicked {
        return;
      }
      var a := v.inodes[i].addrs[NDIRECT];
      if a != 0 {
        IndirectFree(v0, v, i, Below(NDIRECT));
        panicked := FreeEntries(i, v.blocks[a], v0);
        if panicked {
          return;
        }
        StepDone(v0, v, i, EntriesBelow(NSLOTS), NDIRECT);
        AllSlots(NDIRECT);
        panicked := Bfree(a);
        if panicked {
          return;
        }
        ghost var w := v;
        v := SetAddr(v, i, NDIRECT, 0);
        OwnAddrs(v0, w, i, Below(NSLOTS), v.inodes[i]);
      } else {
        NoIndirect(v0, v, i);
      }
      ghost var w := v;
      v := SetSize(v, i, 0);
      OwnAddrs(v0, w, i, Below(NSLOTS), v.inodes[i]);
      assert v.inodes[i].addrs == seq(NDIRECT + 1, _ => 0);
    }

    /** readi into a kernel buffer: the bytes of the file from off on, up to n of them; nothing when
        off is past the end or off + n wraps around. */
    method Readi(i: nat, off: nat, n: nat) returns (data: seq<byte>)
      requires Good(v) && i < |v.inodes| && off < WORD && n < WORD
      modifies this
      ensures v == old(v) && v.inodes[i].size <= MAXFILE * BSIZE
      ensures data == if off > v.inodes[i].size || off + n >= WORD then []
                      else File(v, i)[off..if off + n > v.inodes[i].size then v.inodes[i].size else off + n]
    {
      hide Good, Slot, ByteAt, Grown, AllSet, File, Holds;
      Sizes(v, i);
      GoodShape(v);
      data := [];
      var size := v.inodes[i].size;
      if off > size || (off + n) % WORD < off {
        return;
      }
      var want := if off + n > size then size - off else n;
      var tot, at := 0, off;
      while tot < want
        invariant 0 <= tot <= want && at == off + tot && v == old(v)
        invariant data == File(v, i)[off..at]
      {
        ThereIs(v, i, at / BSIZE);
        var addr := Bmap(i, at / BSIZE);
        assert addr != 0;
        var o := at % BSIZE;
        var m := if want - tot < BSIZE - o then want - tot else BSIZE - o;
        ReadMore(v, i, off, at, addr, m);
        data := data + v.blocks[addr][o..o + m];
        tot := tot + m;
        at := at + m;
      }
    }

    // One turn of writei's loop: as much as fits in the block at off + tot.
    method CopyOne(i: nat, src: seq<byte>, off: nat, tot: nat, ghost v0: Vol) returns (m: nat, halted: bool)
      requires Good(v) && Copied(v0, v, i, off, src, tot) && tot < |src|
      modifies this
      ensures Good(v) && |v.inodes| == |old(v).inodes|
      ensures halted ==> AllSet(v) && Copied(v0, v, i, off, src, tot)
      ensures !halted ==> m == Least(|src| - tot, BSIZE - (off + tot) % BSIZE) && Copied(v0, v, i, off, src, tot + m)
    {
      hide Owned, Slot, ByteAt, Grown, AllSet, Copied;
      CopiedFits(v0, v, i, off, src, tot);
      ghost var u := v;
      var at := off + tot;
      var bn := at / BSIZE;
      var addr := Bmap(i, bn);
      GrownSizes(u, v);
      if addr == 0 {
        CopiedGrown(v0, u, v, i, off, src, tot);
        return 0, true;
      }
      halted := false;
      var o := at % BSIZE;
      m := if |src| - tot < BSIZE - o then |src| - tot else BSIZE - o;
      ghost var w := v;
      InVolume(v, i, bn, addr);
      var bp := v.blocks[addr];
      bp := bp[..o] + src[tot..tot + m] + bp[o + m..];
      v := Written(v, addr, bp);
      WriteKeeps(w, i, bn, addr, bp);
      CopiedMore(v0, u, w, i, off, src, tot, m, addr, bp);
    }

    /** writei from a kernel buffer: -1 and no change when off is past the end or the file would be
        too long; otherwise all of src, with everything else in this and every other file as it
        was, and the file as long as it was or as far as src reaches.  halted stands for balloc's
        panic, which needs every block to be in use; what has been written by then is a first part
        of src, and no size has changed. */
    method Writei(i: nat, src: seq<byte>, off: nat) returns (r: int, halted: bool)
      requires Good(v) && i < |v.inodes| && off < WORD && |src| < WORD
      modifies this
      ensures Good(v) && |v.inodes| == |old(v).inodes| && old(v).inodes[i].size <= MAXFILE * BSIZE
      ensures r == -1 <==> off > old(v).inodes[i].size || off + |src| > MAXFILE * BSIZE
      ensures r == -1 ==> v == old(v) && !halted
      ensures halted ==> AllSet(v) && exists tot: nat :: tot < |src| && Copied(old(v), v, i, off, src, tot)
      ensures r != -1 && !halted ==>
                && r == |src| && File(v, i) == Overwritten(File(old(v), i), off, src)
                && forall j: nat :: j < |v.inodes| && j != i ==> File(v, j) == File(old(v), j)
    {
      hide Owned, Slot, ByteAt, Grown, AllSet;
      ghost var v0 := v;
      Sizes(v, i);
      halted := false;
      var n := |src|;
      if off > v.inodes[i].size || (off + n) % WORD < off {
        return -1, false;
      }
      if off + n > MAXFILE * BSIZE {
        return -1, false;
      }
      var tot, at := 0, off;
      CopiedNothing(v, i, off, src);
      while tot < n
        invariant 0 <= tot <= n && at == off + tot && Good(v) && Copied(v0, v, i, off, src, tot)
      {
        var m;
        m, halted := CopyOne(i, src, off, tot, v0);
        if halted {
          return 0, true;
        }
        tot := tot + m;
        at := at + m;
      }
      ghost var w := v;
      if at > v.inodes[i].size {
        v := SetSize(v, i, at);
      }
      Finished(v0, w, i, off, src);
      r := tot;
    }
  }

  // All slots below n but the indirect block's own.
  ghost function EntriesBelow(n: nat): (s: set<nat>)
    ensures forall k: nat :: k in s <==> k < n && k != NDIRECT
  {
    var own: set<nat> := {NDIRECT};
    Below(n) - own
  }

  lemma NoEntriesYet()
    ensures EntriesBelow(NDIRECT + 1) == Below(NDIRECT)
  {
  }

  lemma NextEntry(n: nat)
    requires n != NDIRECT
    ensures EntriesBelow(n + 1) == EntriesBelow(n) + {n} && n !in EntriesBelow(n)
  {
  }

  lemma AllSlots(k: nat)
    requires k == NDIRECT
    ensures EntriesBelow(NSLOTS) + {k} == Below(NSLOTS)
  {
  }

  // One slot freed, if it holds anything.
  lemma StepDone(v: Vol, w: Vol, i: nat, done: set<nat>, k: nat)
    requires Good(v) && Freeing(v, w, i, done) && i < |v.inodes| && k < NSLOTS && k !in done
    ensures Shaped(v) && Shaped(w) && w.sb == v.sb
    ensures var b := Slot(v.blocks, v.inodes[i], k);
            if b == 0 then Freeing(v, w, i, done + {k})
            else v.sb.datastart <= b < v.sb.size && BitSet(w, b) && Freeing(v, WithBit(w, b, false), i, done + {k})
                 && WithBit(w, b, false).inodes == w.inodes
  {
    hide BitSet, Slot;
    FreeStep(v, w, i, done, k);
  }

  // What inode i itself says has no part in Freeing.
  lemma OwnAddrs(v: Vol, w: Vol, i: nat, done: set<nat>, ip: Inode)
    requires Freeing(v, w, i, done) && i < |w.inodes| && |ip.addrs| == NDIRECT + 1
    ensures Freeing(v, w.(inodes := w.inodes[i := ip]), i, done)
  {
    hide BitIn, Unfreed;
    var u := w.(inodes := w.inodes[i := ip]);
    SameBits(w, u);
    hide BitSet;
  }

  lemma IndirectFree(v: Vol, w: Vol, i: nat, done: set<nat>)
    requires Good(v) && Freeing(v, w, i, done) && i < |v.inodes| && v.inodes[i].addrs[NDIRECT] != 0
    ensures v.sb.datastart <= v.inodes[i].addrs[NDIRECT] < v.sb.size == |w.blocks| == |v.blocks|
    ensures w.blocks[v.inodes[i].addrs[NDIRECT]] == v.blocks[v.inodes[i].addrs[NDIRECT]]
  {
    hide BitSet, Slot;
    IndirectHeld(v, i);
  }

  // Without an indirect block there are no entries to free.
  lemma NoIndirect(v: Vol, w: Vol, i: nat)
    requires Good(v) && Freeing(v, w, i, Below(NDIRECT)) && i < |v.inodes| && v.inodes[i].addrs[NDIRECT] == 0
    ensures Freeing(v, w, i, Below(NSLOTS))
  {
    hide BitSet, Slot, Below, Holds;
    forall c: nat | c < v.sb.size ensures Unfreed(v, i, Below(NSLOTS), c) <==> Unfreed(v, i, Below(NDIRECT), c) {
      forall k: nat | NDIRECT <= k ensures !Holds(v, i, k, c) { NoEntries(v, i, k, c); }
      forall k: nat | k in Below(NDIRECT) ensures k in Below(NSLOTS) { }
    }
  }

  lemma NoEntries(v: Vol, i: nat, k: nat, c: nat)
    requires Shaped(v) && i < |v.inodes| && v.inodes[i].addrs[NDIRECT] == 0 && NDIRECT <= k
    ensures !Holds(v, i, k, c)
  {
  }

  lemma GoodShape(v: Vol)
    requires Good(v)
    ensures Shaped(v)
  {
  }

  lemma Sizes(v: Vol, i: nat)
    requires Good(v) && i < |v.inodes|
    ensures v.inodes[i].size <= MAXFILE * BSIZE
  {
  }

  lemma ThereIs(v: Vol, i: nat, bn: nat)
    requires Good(v) && i < |v.inodes| && bn * BSIZE < v.inodes[i].size
    ensures bn < MAXFILE && |v.inodes[i].addrs| == NDIRECT + 1 && Slot(v.blocks, v.inodes[i], SlotOf(bn)) != 0
  {
    assert v.inodes[i].size <= MAXFILE * BSIZE;
  }

  // m bytes from o on of the block that holds block bn of the file.
  lemma InFile(v: Vol, i: nat, bn: nat, addr: nat, o: nat, m: nat)
    requires Good(v) && i < |v.inodes| && bn < MAXFILE && Holds(v, i, SlotOf(bn), addr) && o + m <= BSIZE
    requires bn * BSIZE + o + m <= v.inodes[i].size <= MAXFILE * BSIZE
    ensures addr < |v.blocks| && v.blocks[addr][o..o + m] == File(v, i)[bn * BSIZE + o..bn * BSIZE + o + m]
  {
    hide Slot, BitSet;
    var x, f := v.blocks[addr][o..o + m], File(v, i)[bn * BSIZE + o..bn * BSIZE + o + m];
    forall t | 0 <= t < m ensures x[t] == f[t] {
      assert (bn * BSIZE + o + t) / BSIZE == bn && (bn * BSIZE + o + t) % BSIZE == o + t;
    }
  }

  lemma ReadMore(v: Vol, i: nat, off: nat, at: nat, addr: nat, m: nat)
    requires Good(v) && i < |v.inodes| && at / BSIZE < MAXFILE && Holds(v, i, SlotOf(at / BSIZE), addr)
    requires off <= at && at % BSIZE + m <= BSIZE && at + m <= v.inodes[i].size <= MAXFILE * BSIZE
    ensures addr < |v.blocks|
    ensures File(v, i)[off..at] + v.blocks[addr][at % BSIZE..at % BSIZE + m] == File(v, i)[off..at + m]
  {
    hide Good, Slot, File;
    InFile(v, i, at / BSIZE, addr, at % BSIZE, m);
  }

  /** src laid over f from off on. */
  function Overwritten(f: seq<byte>, off: nat, src: seq<byte>): (g: seq<byte>)
    requires off <= |f|
    ensures |g| == if off + |src| > |f| then off + |src| else |f|
  {
    f[..off] + src + if off + |src| < |f| then f[off + |src|..] else []
  }

  predicate CopiedByte(v0: Vol, v: Vol, i: nat, off: nat, src: seq<byte>, tot: nat, j: nat, a: nat) {
    && j < |v.inodes| == |v0.inodes| && a < MAXFILE * BSIZE && tot <= |src|
    && |v.inodes[j].addrs| == |v0.inodes[j].addrs| == NDIRECT + 1
    && ByteAt(v.blocks, v.inodes[j], a) ==
       if j == i && off <= a < off + tot then src[a - off] else ByteAt(v0.blocks, v0.inodes[j], a)
  }

  /** v is v0 with the first tot bytes of src written to file i from off on, and the blocks they
      need; the size is not yet set. */
  ghost predicate Copied(v0: Vol, v: Vol, i: nat, off: nat, src: seq<byte>, tot: nat) {
    && Shaped(v0) && Shaped(v) && |v.inodes| == |v0.inodes| && i < |v.inodes| && tot <= |src|
    && off <= v0.inodes[i].size && off + |src| <= MAXFILE * BSIZE
    && (forall j: nat :: j < |v.inodes| ==> v.inodes[j].size == v0.inodes[j].size)
    && (forall j: nat, a: nat :: j < |v.inodes| && a < MAXFILE * BSIZE ==> CopiedByte(v0, v, i, off, src, tot, j, a))
    && (forall n: nat :: n < MAXFILE && n * BSIZE < off + tot ==> Slot(v.blocks, v.inodes[i], SlotOf(n)) != 0)
  }

  lemma CopiedFits(v0: Vol, v: Vol, i: nat, off: nat, src: seq<byte>, tot: nat)
    requires Copied(v0, v, i, off, src, tot)
    ensures i < |v.inodes| && off + |src| <= MAXFILE * BSIZE && tot <= |src|
    ensures tot < |src| ==> (off + tot) / BSIZE < MAXFILE
  {
    hide Slot, CopiedByte;
  }

  lemma GrownSizes(v: Vol, w: Vol)
    requires Grown(v, w)
    ensures Shaped(w) && |w.inodes| == |v.inodes|
  {
    hide Slot, ByteAt;
  }

  lemma InVolume(v: Vol, i: nat, bn: nat, addr: nat)
    requires Good(v) && Holds(v, i, SlotOf(bn), addr) && bn < MAXFILE
    ensures Shaped(v) && addr < |v.blocks|
  {
    hide Slot, BitSet;
  }

  lemma CopiedNothing(v: Vol, i: nat, off: nat, src: seq<byte>)
    requires Good(v) && i < |v.inodes| && off <= v.inodes[i].size && off + |src| <= MAXFILE * BSIZE
    ensures Copied(v, v, i, off, src, 0)
  {
    hide Slot, ByteAt, BitSet;
  }

  // One more piece: bmap has taken u to w, and block bn of the file is about to become x.
  lemma CopiedMore(v0: Vol, u: Vol, w: Vol, i: nat, off: nat, src: seq<byte>, tot: nat, m: nat, addr: nat, x: Block)
    requires Copied(v0, u, i, off, src, tot) && Grown(u, w) && Good(w) && tot < |src|
    requires var at := off + tot;
             && at / BSIZE < MAXFILE && Holds(w, i, SlotOf(at / BSIZE), addr) && addr < |w.blocks|
             && m == Least(|src| - tot, BSIZE - at % BSIZE)
             && x == w.blocks[addr][..at % BSIZE] + src[tot..tot + m] + w.blocks[addr][at % BSIZE + m..]
    requires Rewritten(w, Written(w, addr, x), i, (off + tot) / BSIZE, x) && Good(Written(w, addr, x))
    ensures Copied(v0, Written(w, addr, x), i, off, src, tot + m)
  {
    hide Owned, Slot, ByteAt, Rewritten, RewrittenByte, CopiedByte, Holds;
    var v := Written(w, addr, x);
    WrittenKeepsSlots(w, i, (off + tot) / BSIZE, addr, x);
    var upto := tot + m;
    forall j: nat, a: nat | j < |v.inodes| && a < MAXFILE * BSIZE ensures CopiedByte(v0, v, i, off, src, upto, j, a) {
      CopiedByteMore(v0, u, w, i, off, src, tot, m, addr, x, j, a);
    }
    forall n: nat | n < MAXFILE && n * BSIZE < off + tot + m ensures Slot(v.blocks, v.inodes[i], SlotOf(n)) != 0 {
      SlotMore(u, w, i, off + tot, m, n, addr);
    }
  }

  lemma WrittenKeepsSlots(w: Vol, i: nat, bn: nat, addr: nat, x: Block)
    requires Good(w) && bn < MAXFILE && Holds(w, i, SlotOf(bn), addr) && addr < |w.blocks|
    ensures forall n: nat :: n < MAXFILE ==>
              Slot(Written(w, addr, x).blocks, w.inodes[i], SlotOf(n)) == Slot(w.blocks, w.inodes[i], SlotOf(n))
  {
    hide Slot, BitSet, SameSlots;
    WrittenSlots(w, i, bn, addr, x);
    forall n: nat | n < MAXFILE
      ensures Slot(Written(w, addr, x).blocks, w.inodes[i], SlotOf(n)) == Slot(w.blocks, w.inodes[i], SlotOf(n))
    {
      SlotKept(w, Written(w, addr, x), i, SlotOf(n));
    }
  }

  lemma SlotMore(u: Vol, w: Vol, i: nat, at: nat, m: nat, n: nat, addr: nat)
    requires Grown(u, w) && i < |u.inodes| && n < MAXFILE && n * BSIZE < at + m && m <= BSIZE - at % BSIZE
    requires at / BSIZE < MAXFILE && Holds(w, i, SlotOf(at / BSIZE), addr)
    requires forall k: nat :: k < MAXFILE && k * BSIZE < at ==> Slot(u.blocks, u.inodes[i], SlotOf(k)) != 0
    ensures Slot(w.blocks, w.inodes[i], SlotOf(n)) != 0
  {
    hide Slot, ByteAt;
    if n * BSIZE < at {
      assert Slot(u.blocks, u.inodes[i], SlotOf(n)) != 0;
    } else {
      assert n == at / BSIZE;
    }
  }

  lemma CopiedByteMore(v0: Vol, u: Vol, w: Vol, i: nat, off: nat, src: seq<byte>, tot: nat, m: nat, addr: nat,
                       x: Block, j: nat, a: nat)
    requires Copied(v0, u, i, off, src, tot) && Grown(u, w) && Good(w) && tot < |src|
    requires var at := off + tot;
             && at / BSIZE < MAXFILE && Holds(w, i, SlotOf(at / BSIZE), addr) && addr < |w.blocks|
             && m == Least(|src| - tot, BSIZE - at % BSIZE)
             && x == w.blocks[addr][..at % BSIZE] + src[tot..tot + m] + w.blocks[addr][at % BSIZE + m..]
    requires Rewritten(w, Written(w, addr, x), i, (off + tot) / BSIZE, x)
    requires j < |w.inodes| && a < MAXFILE * BSIZE
    ensures CopiedByte(v0, Written(w, addr, x), i, off, src, tot + m, j, a)
  {
    hide ByteAt, Slot, Owned, SameBytes;
    var at := off + tot;
    assert CopiedByte(v0, u, i, off, src, tot, j, a);
    assert RewrittenByte(w, Written(w, addr, x), i, at / BSIZE, x, j, a);
    SameByte(u, w, j, a);
    if j == i && a / BSIZE == at / BSIZE {
      BlockByte(w, i, addr, a);
      PieceByte(w.blocks[addr], src, at, tot, m, x, a);
    } else {
      Outside(at, m, a);
    }
  }

  // A block with a piece of src laid over it.
  lemma PieceByte(y: Block, src: seq<byte>, at: nat, tot: nat, m: nat, x: Block, a: nat)
    requires tot <= |src| && m == Least(|src| - tot, BSIZE - at % BSIZE) && a / BSIZE == at / BSIZE
    requires x == y[..at % BSIZE] + src[tot..tot + m] + y[at % BSIZE + m..]
    ensures x[a % BSIZE] == if at <= a < at + m then src[tot + a - at] else y[a % BSIZE]
  {
    assert a % BSIZE - at % BSIZE == a - at;
  }

  // No byte of another block is in the piece.
  lemma Outside(at: nat, m: nat, a: nat)
    requires m <= BSIZE - at % BSIZE
    ensures a / BSIZE != at / BSIZE ==> !(at <= a < at + m)
  {
  }

  // bmap may have added blocks; nothing that has been copied is lost.
  lemma CopiedGrown(v0: Vol, u: Vol, w: Vol, i: nat, off: nat, src: seq<byte>, tot: nat)
    requires Copied(v0, u, i, off, src, tot) && Grown(u, w)
    ensures Copied(v0, w, i, off, src, tot)
  {
    hide ByteAt, Slot, SameBytes;
    forall j: nat, a: nat | j < |w.inodes| && a < MAXFILE * BSIZE ensures CopiedByte(v0, w, i, off, src, tot, j, a) {
      SameByte(u, w, j, a);
      assert CopiedByte(v0, u, i, off, src, tot, j, a);
    }
  }

  lemma SameByte(u: Vol, w: Vol, j: nat, a: nat)
    requires Grown(u, w) && j < |u.inodes| && a < MAXFILE * BSIZE
    ensures j < |w.inodes| && |u.inodes[j].addrs| == |w.inodes[j].addrs| == NDIRECT + 1
    ensures ByteAt(w.blocks, w.inodes[j], a) == ByteAt(u.blocks, u.inodes[j], a)
  {
    hide ByteAt, Slot;
  }

  lemma BlockByte(w: Vol, i: nat, addr: nat, a: nat)
    requires Shaped(w) && a < MAXFILE * BSIZE && Holds(w, i, SlotOf(a / BSIZE), addr) && addr < |w.blocks|
    ensures ByteAt(w.blocks, w.inodes[i], a) == w.blocks[addr][a % BSIZE]
  {
    hide Slot;
  }

  /** When everything is copied and the size is set, the file is the old one with src laid over it. */
  lemma Finished(v0: Vol, w: Vol, i: nat, off: nat, src: seq<byte>)
    requires Good(v0) && Good(w) && Copied(v0, w, i, off, src, |src|)
    ensures i < |w.inodes| == |v0.inodes| && v0.inodes[i].size <= MAXFILE * BSIZE
    ensures var v := if off + |src| > w.inodes[i].size then SetSize(w, i, off + |src|) else w;
            && Good(v) && |v.inodes| == |v0.inodes|
            && File(v, i) == Overwritten(File(v0, i), off, src)
            && forall j: nat :: j < |v0.inodes| && j != i ==> File(v, j) == File(v0, j)
  {
    hide Owned, Slot, ByteAt;
    var n := off + |src|;
    var v := if n > w.inodes[i].size then SetSize(w, i, n) else w;
    if n > w.inodes[i].size { SetSizeKeeps(w, i, n); }
    forall j: nat, a: nat | j < |v0.inodes| && a < v.inodes[j].size
      ensures v.inodes[j].size <= MAXFILE * BSIZE
      ensures ByteAt(v.blocks, v.inodes[j], a) ==
              if j == i && off <= a < n then src[a - off] else ByteAt(v0.blocks, v0.inodes[j], a)
    {
      assert CopiedByte(v0, w, i, off, src, |src|, j, a);
    }
    assert File(v, i) == Overwritten(File(v0, i), off, src);
    forall j: nat | j < |v0.inodes| && j != i ensures File(v, j) == File(v0, j) { }
  }
}
