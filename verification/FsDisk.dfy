/** The file system on the logged disk: inodes in their blocks, as iupdate writes and ilock reads
    them, and what becomes of block ownership and of the files when the machine crashes. */
module FsDisk {
  import opened Memlib
  import opened FsBlocks
  import Storage
  import LogMachine
  import LogMoments
  import LogSafety

  const IPB: nat := 16                  // inodes per block
  const DINODE: nat := 16               // words of an inode on disk
  const SIZE: nat := 2                  // where its size is, and
  const ADDRS: nat := 3                 // where its addresses start

  /** Boot block, superblock, log, inodes, bitmap and data, in this order. */
  datatype Geometry = Geometry(log: Storage.Layout, sb: Super, inodestart: nat, ninodes: nat) {
    ghost predicate Ok() {
      && sb.Ok() && log.start + log.size <= inodestart
      && inodestart + (ninodes + IPB - 1) / IPB <= sb.bmapstart <= sb.datastart
    }

    // IBLOCK
    function IBlock(i: nat): nat {
      i / IPB + inodestart
    }
  }

  function Bytes(x: Storage.Block): Block {
    seq(BSIZE, j requires 0 <= j < BSIZE => Byte(x[j / 4] % WORD, j % 4))
  }

  /** The inode in slot s of a block of inodes. */
  function InodeIn(x: Storage.Block, s: nat): Inode
    requires s < IPB
  {
    Inode(seq(NDIRECT + 1, k requires 0 <= k <= NDIRECT => x[DINODE * s + ADDRS + k] % WORD),
          x[DINODE * s + SIZE] % WORD)
  }

  /** The volume on a disk image. */
  function VolumeOf(g: Geometry, im: Storage.Image): Vol
    requires g.inodestart + (g.ninodes + IPB - 1) / IPB <= |im|
  {
    Vol(g.sb, seq(|im|, b requires 0 <= b < |im| => Bytes(im[b])),
        seq(g.ninodes, i requires 0 <= i < g.ninodes => InodeIn(im[g.IBlock(i)], i % IPB)))
  }

  /** Whole, and in good order. */
  ghost predicate Consistent(g: Geometry, im: Storage.Image) {
    && g.Ok() && |im| == g.sb.size && Good(VolumeOf(g, im))
  }

  // ---- what the file system writes ----

  /** iupdate: the block with the size and the addresses of one inode replaced. */
  function WithInode(x: Storage.Block, s: nat, ip: Inode): Storage.Block
    requires s < IPB && |ip.addrs| == NDIRECT + 1
  {
    seq(Storage.WORDS, j requires 0 <= j < Storage.WORDS =>
      if j == DINODE * s + SIZE then ip.size
      else if DINODE * s + ADDRS <= j <= DINODE * s + ADDRS + NDIRECT then ip.addrs[j - DINODE * s - ADDRS]
      else x[j])
  }

  lemma InodeReads(x: Storage.Block, s: nat, ip: Inode, t: nat)
    requires s < IPB && t < IPB && |ip.addrs| == NDIRECT + 1 && ip.size < WORD
    requires forall k :: 0 <= k <= NDIRECT ==> ip.addrs[k] < WORD
    ensures InodeIn(WithInode(x, s, ip), t) == if t == s then ip else InodeIn(x, t)
  {
  }

  /** iupdate on the disk is the change of one inode of the volume. */
  lemma IupdateChanges(g: Geometry, im: Storage.Image, i: nat, ip: Inode)
    requires g.Ok() && |im| == g.sb.size && i < g.ninodes && |ip.addrs| == NDIRECT + 1 && ip.size < WORD
    requires forall k :: 0 <= k <= NDIRECT ==> ip.addrs[k] < WORD
    ensures var v := VolumeOf(g, im);
            var w := VolumeOf(g, im[g.IBlock(i) := WithInode(im[g.IBlock(i)], i % IPB, ip)]);
            && w.sb == v.sb && w.inodes == v.inodes[i := ip] && |w.blocks| == |v.blocks|
            && forall b :: 0 <= b < |v.blocks| && b != g.IBlock(i) ==> w.blocks[b] == v.blocks[b]
  {
    hide WithInode, InodeIn, Bytes;
    var x := im[g.IBlock(i)];
    var v, w := VolumeOf(g, im), VolumeOf(g, im[g.IBlock(i) := WithInode(x, i % IPB, ip)]);
    forall j | 0 <= j < g.ninodes ensures w.inodes[j] == v.inodes[i := ip][j] {
      InodeReads(x, i % IPB, ip, j % IPB);
    }
  }

  /** Writing a bitmap or data block is the change of that block of the volume. */
  lemma BlockChanges(g: Geometry, im: Storage.Image, b: nat, x: Storage.Block)
    requires g.Ok() && |im| == g.sb.size && g.sb.bmapstart <= b < |im|
    ensures var v := VolumeOf(g, im);
            VolumeOf(g, im[b := x]) == v.(blocks := v.blocks[b := Bytes(x)])
  {
    hide InodeIn, Bytes;
  }

  // ---- the volume does not depend on the log area ----

  // Everything the file system reads of a good volume lies outside the log.
  ghost predicate Alike(v: Vol, w: Vol) {
    && Shaped(v) && Shaped(w) && v.sb == w.sb && v.inodes == w.inodes
    && (forall b: nat :: b < v.sb.size ==> BitSet(v, b) == BitSet(w, b))
    && (forall b :: v.sb.datastart <= b < v.sb.size ==> v.blocks[b] == w.blocks[b])
  }

  lemma SameVolume(g: Geometry, a: Storage.Image, b: Storage.Image)
    requires Consistent(g, b) && Storage.SameHome(a, b, g.log)
    ensures Alike(VolumeOf(g, b), VolumeOf(g, a))
  {
    hide Marked, Single, MetaMarked, NoHoles, Bytes, InodeIn, BitIn;
    var v, w := VolumeOf(g, b), VolumeOf(g, a);
    forall i | 0 <= i < g.ninodes ensures v.inodes[i] == w.inodes[i] {
      assert g.log.Home(a, g.IBlock(i));
    }
    forall i | 0 <= i < g.sb.size ensures g.sb.bmapstart <= i ==> v.blocks[i] == w.blocks[i] {
      if g.sb.bmapstart <= i { assert g.log.Home(a, i); }
    }
  }

  lemma SameSlot(v: Vol, w: Vol, i: nat, k: nat)
    requires Alike(v, w) && Good(v) && i < |v.inodes| && k < NSLOTS
    ensures Slot(v.blocks, v.inodes[i], k) == Slot(w.blocks, w.inodes[i], k)
  {
    hide BitSet, Entry;
    assert Holds(v, i, NDIRECT, v.inodes[i].addrs[NDIRECT]) || v.inodes[i].addrs[NDIRECT] == 0;
  }

  lemma AlikeGood(v: Vol, w: Vol)
    requires Alike(v, w) && Good(v)
    ensures Good(w)
  {
    hide BitSet, Slot;
    forall i: nat, k: nat | i < |v.inodes| && k < NSLOTS
      ensures Slot(v.blocks, v.inodes[i], k) == Slot(w.blocks, w.inodes[i], k)
    {
      SameSlot(v, w, i, k);
    }
    assert forall i: nat, k: nat, b: nat :: Holds(w, i, k, b) ==> Holds(v, i, k, b);
  }

  lemma SameByte(v: Vol, w: Vol, i: nat, off: nat)
    requires Alike(v, w) && Good(v) && i < |v.inodes| && off < MAXFILE * BSIZE
    ensures ByteAt(v.blocks, v.inodes[i], off) == ByteAt(w.blocks, w.inodes[i], off)
  {
    hide BitSet, Slot;
    var k := SlotOf(off / BSIZE);
    SameSlot(v, w, i, k);
    assert Holds(v, i, k, Slot(v.blocks, v.inodes[i], k)) || Slot(v.blocks, v.inodes[i], k) == 0;
  }

  /** Images that agree outside the log hold the same files in the same good order. */
  ghost predicate SameFiles(g: Geometry, a: Storage.Image, b: Storage.Image) {
    && Consistent(g, a) && Consistent(g, b)
    && forall i :: 0 <= i < g.ninodes ==> File(VolumeOf(g, a), i) == File(VolumeOf(g, b), i)
  }

  lemma SameHomeSameFiles(g: Geometry, a: Storage.Image, b: Storage.Image)
    requires Consistent(g, b) && Storage.SameHome(a, b, g.log)
    ensures SameFiles(g, a, b)
  {
    var v, w := VolumeOf(g, b), VolumeOf(g, a);
    SameVolume(g, a, b);
    AlikeGood(v, w);
    forall i | 0 <= i < g.ninodes ensures File(w, i) == File(v, i) {
      forall off: nat | off < v.inodes[i].size
        ensures ByteAt(v.blocks, v.inodes[i], off) == ByteAt(w.blocks, w.inodes[i], off)
      {
        SameByte(v, w, i, off);
      }
    }
  }

  // ---- crashes ----

  /** Nobody being inside an operation, readers see a volume in good order. */
  ghost predicate OperationsKeep(g: Geometry, d: Storage.Image, nproc: nat, es: seq<LogMachine.Event>)
    requires Storage.Well(d, g.log)
  {
    LogMoments.KeptWhenQuiet((im: Storage.Image) => Consistent(g, im), g.log, d, nproc, es)
  }

  /** If what the operations leave behind is in good order whenever nobody is inside one, then so is
      what recovery leaves after a crash at any moment; and every file is as it was first, or as
      readers saw it at one such moment, the same for all files. */
  lemma VolumeSurvives(g: Geometry, d: Storage.Image, nproc: nat, es: seq<LogMachine.Event>)
    requires Storage.Well(d, g.log) && LogSafety.Ran(g.log, d, nproc, es).Ok?
    requires Consistent(g, Storage.Recovered(d, g.log)) && OperationsKeep(g, d, nproc, es)
    ensures Storage.Well(LogSafety.Ran(g.log, d, nproc, es).r.s.disk, g.log)
    ensures var now := Storage.Recovered(LogSafety.Ran(g.log, d, nproc, es).r.s.disk, g.log);
            Consistent(g, now) && (SameFiles(g, now, Storage.Recovered(d, g.log))
                                   || exists i :: QuietFiles(g, d, nproc, es, i, now))
  {
    hide LogSafety.Ran, Storage.Recovered, Consistent, SameFiles, LogMoments.Quiet;
    var i := LogMoments.RecoversMoment(g.log, d, nproc, es);
    var now := Storage.Recovered(LogSafety.Ran(g.log, d, nproc, es).r.s.disk, g.log);
    if Storage.SameHome(now, Storage.Recovered(d, g.log), g.log) {
      SameHomeSameFiles(g, now, Storage.Recovered(d, g.log));
      BothConsistent(g, now, Storage.Recovered(d, g.log));
    } else {
      var seen := LogSafety.Ran(g.log, d, nproc, es[..i]).r.s.cur;
      SameHomeSameFiles(g, now, seen);
      BothConsistent(g, now, seen);
      assert QuietFiles(g, d, nproc, es, i, now);
    }
  }

  // The files of im are those readers saw after i events, when the log was quiet.
  ghost predicate QuietFiles(g: Geometry, d: Storage.Image, nproc: nat, es: seq<LogMachine.Event>, i: nat,
                             im: Storage.Image)
    requires Storage.Well(d, g.log)
  {
    && i <= |es| && LogSafety.Ran(g.log, d, nproc, es[..i]).Ok?
    && LogMoments.Quiet(LogSafety.Ran(g.log, d, nproc, es[..i]).r.s)
    && SameFiles(g, im, LogSafety.Ran(g.log, d, nproc, es[..i]).r.s.cur)
  }

  lemma BothConsistent(g: Geometry, a: Storage.Image, b: Storage.Image)
    requires SameFiles(g, a, b)
    ensures Consistent(g, a) && Consistent(g, b)
  {
  }

  // ---- the format ----

  /** The jth address of an indirect block is the jth word of the block on disk. */
  lemma EntryIsWord(x: Storage.Block, j: nat)
    requires j < NINDIRECT
    ensures Entry(Bytes(x), j) == x[j] % WORD
  {
    BytesOfWord(x[j] % WORD);
    assert 4 * j / 4 == j && (4 * j + 1) / 4 == j && (4 * j + 2) / 4 == j && (4 * j + 3) / 4 == j;
  }
}
