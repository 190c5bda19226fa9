/** fs.c's disk: the free bitmap, and the blocks an inode holds. */
module FsBlocks {
  import opened Memlib
  import opened Bits

  const BSIZE: nat := 1024
  const BPB: nat := 8192                // bitmap bits per block
  const NDIRECT: nat := 12
  const NINDIRECT: nat := 256           // BSIZE / sizeof(uint)
  const MAXFILE: nat := 268
  const NSLOTS: nat := 269              // NDIRECT + the indirect block itself + NINDIRECT

  type Block = s: seq<byte> | |s| == BSIZE witness seq(BSIZE, _ => 0)

  /** What mkfs has decided: blocks below datastart are the boot block, the superblock, the log,
      the inodes and the bitmap. */
  datatype Super = Super(size: nat, bmapstart: nat, datastart: nat) {
    ghost predicate Ok() {
      0 < datastart <= size < WORD && forall b :: 0 <= b < size ==> BBlock(b) < datastart
    }

    // BBLOCK
    function BBlock(b: nat): nat {
      b / BPB + bmapstart
    }
  }

  datatype Inode = Inode(addrs: seq<nat>, size: nat)

  // The bit of b in the bitmap block that has it.
  function BitIn(x: Block, b: nat): bool {
    BitOf(x[b % BPB / 8], b % 8)
  }

  function PutBit(x: Block, b: nat, on: bool): Block
    requires BitIn(x, b) != on
  {
    x[b % BPB / 8 := if on then SetBit(x[b % BPB / 8], b % 8) else ClearBit(x[b % BPB / 8], b % 8)]
  }

  lemma PutBitIn(x: Block, b: nat, on: bool, c: nat)
    requires BitIn(x, b) != on && b / BPB == c / BPB
    ensures BitIn(PutBit(x, b, on), c) == if c == b then on else BitIn(x, c)
  {
    hide BitOf, SetBit, ClearBit;
    if b % BPB / 8 == c % BPB / 8 {
      OneBit(x[b % BPB / 8], b % 8, c % 8);
    }
  }

  /** A volume: its blocks as the file system sees them through the log, and its live inodes. */
  datatype Vol = Vol(sb: Super, blocks: seq<Block>, inodes: seq<Inode>)

  ghost predicate Shaped(v: Vol) {
    && v.sb.Ok() && |v.blocks| == v.sb.size
    && forall i :: 0 <= i < |v.inodes| ==> |v.inodes[i].addrs| == NDIRECT + 1
  }

  ghost predicate BitSet(v: Vol, b: nat)
    requires Shaped(v) && b < v.sb.size
  {
    BitIn(v.blocks[v.sb.BBlock(b)], b)
  }

  ghost function WithBit(v: Vol, b: nat, on: bool): Vol
    requires Shaped(v) && b < v.sb.size && BitSet(v, b) != on
  {
    v.(blocks := v.blocks[v.sb.BBlock(b) := PutBit(v.blocks[v.sb.BBlock(b)], b, on)])
  }

  lemma WithBitSets(v: Vol, b: nat, on: bool, c: nat)
    requires Shaped(v) && b < v.sb.size && c < v.sb.size && BitSet(v, b) != on
    ensures Shaped(WithBit(v, b, on)) && BitSet(WithBit(v, b, on), c) == if c == b then on else BitSet(v, c)
  {
    hide BitIn, PutBit;
    if v.sb.BBlock(b) == v.sb.BBlock(c) {
      PutBitIn(v.blocks[v.sb.BBlock(b)], b, on, c);
    }
  }

  // ---- what an inode holds ----

  // Slots 0 to 11 are the direct blocks, 12 the indirect block, 13 and up its entries.
  function SlotOf(bn: nat): nat {
    if bn < NDIRECT then bn else bn + 1
  }

  // The jth uint of an indirect block.
  function Entry(x: Block, j: nat): nat
    requires j < NINDIRECT
  {
    Word(x, 4 * j)
  }

  function Slot(blocks: seq<Block>, ip: Inode, k: nat): nat
    requires |ip.addrs| == NDIRECT + 1 && k < NSLOTS
  {
    if k <= NDIRECT then ip.addrs[k]
    else if ip.addrs[NDIRECT] == 0 || ip.addrs[NDIRECT] >= |blocks| then 0
    else Entry(blocks[ip.addrs[NDIRECT]], k - NDIRECT - 1)
  }

  ghost predicate Holds(v: Vol, i: nat, k: nat, b: nat)
    requires Shaped(v)
  {
    i < |v.inodes| && k < NSLOTS && b != 0 && Slot(v.blocks, v.inodes[i], k) == b
  }

  // What is held is a data block and is marked in the bitmap.
  ghost predicate Marked(v: Vol)
    requires Shaped(v)
  {
    forall i: nat, k: nat, b: nat :: Holds(v, i, k, b) ==> v.sb.datastart <= b < v.sb.size && BitSet(v, b)
  }

  // No block is held twice, by one inode or by two.
  ghost predicate Single(v: Vol)
    requires Shaped(v)
  {
    forall i: nat, k: nat, j: nat, l: nat, b: nat :: Holds(v, i, k, b) && Holds(v, j, l, b) ==> i == j && k == l
  }

  ghost predicate MetaMarked(v: Vol)
    requires Shaped(v)
  {
    forall b: nat :: b < v.sb.datastart ==> BitSet(v, b)
  }

  /** Block ownership. */
  ghost predicate Owned(v: Vol) {
    Shaped(v) && Marked(v) && Single(v) && MetaMarked(v)
  }

  // ---- files ----

  function ByteAt(blocks: seq<Block>, ip: Inode, off: nat): byte
    requires |ip.addrs| == NDIRECT + 1 && off < MAXFILE * BSIZE
  {
    var b := Slot(blocks, ip, SlotOf(off / BSIZE));
    if b == 0 || b >= |blocks| then 0 else blocks[b][off % BSIZE]
  }

  // Every block below the size is there.
  ghost predicate NoHoles(v: Vol)
    requires Shaped(v)
  {
    forall i :: 0 <= i < |v.inodes| ==>
      v.inodes[i].size <= MAXFILE * BSIZE
      && forall bn :: 0 <= bn < MAXFILE && bn * BSIZE < v.inodes[i].size ==>
          Slot(v.blocks, v.inodes[i], SlotOf(bn)) != 0
  }

  ghost predicate Good(v: Vol) {
    Owned(v) && NoHoles(v)
  }

  /** The file of inode i: its bytes from 0 to its size. */
  ghost function File(v: Vol, i: nat): (f: seq<byte>)
    requires Shaped(v) && i < |v.inodes| && v.inodes[i].size <= MAXFILE * BSIZE
    ensures |f| == v.inodes[i].size
  {
    seq(v.inodes[i].size, off requires 0 <= off < v.inodes[i].size => ByteAt(v.blocks, v.inodes[i], off))
  }

  // ---- where it starts ----

  /** A volume with nothing but empty inodes, the blocks before the data marked, is good. */
  lemma EmptyIsGood(v: Vol)
    requires Shaped(v) && MetaMarked(v)
    requires forall i :: 0 <= i < |v.inodes| ==> v.inodes[i] == Inode(seq(NDIRECT + 1, _ => 0), 0)
    ensures Good(v)
  {
    forall i: nat, k: nat, b: nat ensures !Holds(v, i, k, b) { }
  }

  /** Sixteen blocks, eight of them for data, and two empty inodes. */
  lemma SmallVolume() returns (v: Vol)
    ensures Good(v) && |v.inodes| == 2 && v.sb == Super(16, 1, 8)
    ensures forall b: nat :: b < 16 ==> (BitSet(v, b) <==> b < 8)
  {
    var zero: Block := seq(BSIZE, _ => 0);
    var map_: Block := zero[0 := 255];
    var ip := Inode(seq(NDIRECT + 1, _ => 0), 0);
    v := Vol(Super(16, 1, 8), seq(16, i => if i == 1 then map_ else zero), [ip, ip]);
    forall b: nat | b < 16 ensures BitIn(map_, b) <==> b < 8 {
      Bit255(b % 8);
    }
    hide BitIn;
    assert Shaped(v);
    assert forall b: nat :: b < 16 ==> v.sb.BBlock(b) == 1;
    EmptyIsGood(v);
  }

  // All eight bits of 255 are set, and none of 0.
  lemma Bit255(k: nat)
    requires k < 8
    ensures BitOf(255, k) && !BitOf(0, k)
  {
  }
}
