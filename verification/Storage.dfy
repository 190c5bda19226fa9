/** Disk blocks, single-block writes, and the write-ahead log's on-disk format.

    A block is BSIZE bytes seen as 32-bit words.  The disk performs one block write at a
    time, and a crash may fall between any two of them, so what a crash can leave behind
    is exactly what `Replay` yields on some prefix of the writes that were issued. */
module Storage {

  const WORDS: nat := 256       // BSIZE / sizeof(int)
  const MAXOPBLOCKS: nat := 10
  const LOGSIZE: nat := MAXOPBLOCKS * 3
  const NBUF: nat := MAXOPBLOCKS * 3

  type Block = s: seq<int> | |s| == WORDS witness seq(WORDS, _ => 0)
  type Image = seq<Block>

  datatype Write = Write(blockno: nat, data: Block)

  function Apply(d: Image, w: Write): (r: Image)
    ensures |r| == |d|
  {
    if w.blockno < |d| then d[w.blockno := w.data] else d
  }

  function Replay(d: Image, ws: seq<Write>): (r: Image)
    ensures |r| == |d|
  {
    if ws == [] then d else Apply(Replay(d, ws[..|ws| - 1]), ws[|ws| - 1])
  }

  /** Where the log lives: a header block at `start`, then `size - 1` blocks of data. */
  datatype Layout = Layout(start: nat, size: nat) {
    predicate Fits(d: Image) {
      0 < size && start + size <= |d|
    }

    // A home block is one that is not part of the log area.
    predicate Home(d: Image, b: int) {
      0 <= b < |d| && !(start <= b < start + size)
    }
  }

  /** The header block is `int n` followed by `int block[LOGSIZE]`. */
  predicate GoodHead(d: Image, L: Layout)
    requires L.Fits(d)
  {
    var h := d[L.start];
    0 <= h[0] <= LOGSIZE && h[0] < L.size && forall i :: 1 <= i <= h[0] ==> L.Home(d, h[i])
  }

  function HeadList(d: Image, L: Layout): (r: seq<nat>)
    requires L.Fits(d) && GoodHead(d, L)
    ensures |r| == d[L.start][0]
    ensures forall i :: 0 <= i < |r| ==> L.Home(d, r[i])
  {
    d[L.start][1..1 + d[L.start][0]]
  }

  predicate Well(d: Image, L: Layout) {
    L.Fits(d) && GoodHead(d, L)
  }

  // The header write_head produces: only the count and the live entries change.
  function HeadBlock(prior: Block, lh: seq<nat>): (r: Block)
    requires |lh| <= LOGSIZE
  {
    seq(WORDS, i requires 0 <= i < WORDS =>
      if i == 0 then |lh| else if i <= |lh| then lh[i - 1] else prior[i])
  }

  /** The last position at which b is listed. */
  function LastIndex(bl: seq<nat>, b: nat): (i: nat)
    requires b in bl
    ensures i < |bl| && bl[i] == b
    ensures forall j :: i < j < |bl| ==> bl[j] != b
  {
    if bl[|bl| - 1] == b then |bl| - 1 else LastIndex(bl[..|bl| - 1], b)
  }

  /** What the home blocks mean after a crash left image d: a block listed in the header has
      the contents of its log copy, every other block has what is in place. */
  function Recovered(d: Image, L: Layout): (r: Image)
    requires Well(d, L)
    ensures |r| == |d|
  {
    var bl := HeadList(d, L);
    seq(|d|, b requires 0 <= b < |d| =>
      if b in bl then d[L.start + 1 + LastIndex(bl, b)] else d[b])
  }

  /** Agreement on every block outside the log area. */
  predicate SameHome(a: Image, b: Image, L: Layout) {
    |a| == |b| && forall i :: 0 <= i < |a| && L.Home(a, i) ==> a[i] == b[i]
  }

  /** log_write's search-and-append: absorption keeps a block listed once. */
  function Absorb(lh: seq<nat>, b: nat): seq<nat> {
    if b in lh then lh else lh + [b]
  }

  /** The image a committed group produces: listed blocks take their cached contents. */
  function Updated(d: Image, lh: seq<nat>, cached: Image): (r: Image)
    requires |cached| == |d|
    ensures |r| == |d|
  {
    seq(|d|, b requires 0 <= b < |d| => if b in lh then cached[b] else d[b])
  }

  // ---- the writes the log code issues, in order ----

  /** write_log: copy each cached block to its slot. */
  function LogWrites(L: Layout, lh: seq<nat>, cached: Image): (r: seq<Write>)
    requires forall i :: 0 <= i < |lh| ==> lh[i] < |cached|
    ensures |r| == |lh|
  {
    seq(|lh|, i requires 0 <= i < |lh| => Write(L.start + 1 + i, cached[lh[i]]))
  }

  /** install_trans: copy `from` slot i to its home. */
  function InstallWrites(L: Layout, lh: seq<nat>, d: Image): (r: seq<Write>)
    requires L.start + 1 + |lh| <= |d|
    ensures |r| == |lh|
  {
    seq(|lh|, i requires 0 <= i < |lh| => Write(lh[i], d[L.start + 1 + i]))
  }

  function HeadWrite(L: Layout, prior: Block, lh: seq<nat>): Write
    requires |lh| <= LOGSIZE
  {
    Write(L.start, HeadBlock(prior, lh))
  }

  /** recover_from_log. */
  function RecoverWrites(d: Image, L: Layout): (r: seq<Write>)
    requires Well(d, L)
    ensures |r| == |HeadList(d, L)| + 1
  {
    InstallWrites(L, HeadList(d, L), d) + [HeadWrite(L, d[L.start], [])]
  }

  predicate Committable(d: Image, L: Layout, lh: seq<nat>) {
    Well(d, L) && |lh| <= LOGSIZE && |lh| < L.size && forall i :: 0 <= i < |lh| ==> L.Home(d, lh[i])
  }

  /** write_log and the first write_head: everything up to the commit point. */
  function MarkWrites(d: Image, L: Layout, lh: seq<nat>, cached: Image): (r: seq<Write>)
    requires Committable(d, L, lh) && |cached| == |d|
    ensures |r| == |lh| + 1
  {
    LogWrites(L, lh, cached) + [HeadWrite(L, d[L.start], lh)]
  }

  /** commit: nothing at all for an empty group; otherwise log, commit point, install, erase. */
  function CommitWrites(d: Image, L: Layout, lh: seq<nat>, cached: Image): (r: seq<Write>)
    requires Committable(d, L, lh) && |cached| == |d|
    ensures |r| == if lh == [] then 0 else 2 * |lh| + 2
  {
    if lh == [] then [] else
    MarkWrites(d, L, lh, cached)
    + seq(|lh|, i requires 0 <= i < |lh| => Write(lh[i], cached[lh[i]]))
    + [HeadWrite(L, HeadBlock(d[L.start], lh), [])]
  }
}
