/** bio.c: a fixed pool of buffers on a doubly linked ring, most recently used first. */
module BufferCache {
  import opened Storage

  /** The disk: single-block transfers, each write recorded in order. */
  class Disk {
    var image: Image
    ghost var history: seq<Write>

    constructor (d: Image)
      ensures image == d && history == []
    {
      image := d;
      history := [];
    }

    method WriteBlock(b: nat, data: Block)
      requires b < |image|
      modifies this
      ensures image == Apply(old(image), Write(b, data))
      ensures history == old(history) + [Write(b, data)]
    {
      image := image[b := data];
      history := history + [Write(b, data)];
    }
  }

  /** One buffer of the pool.  Its prev and next pointers are kept apart, in the cache. */
  datatype Slot = Slot(valid: bool, dev: nat, blockno: nat, locked: bool, refcnt: nat, data: Block)

  /** What the cache must agree with: the disk image, what bread returns for each block, and
      how many references each block's buffer has. */
  datatype Tables = Tables(device: nat, image: Image, view: Image, refs: seq<nat>) {
    predicate Sized() {
      device != 0 && |view| == |refs| == |image|
    }
  }

  predicate Holds(s: Slot, device: nat, n: nat) {
    s.dev == device && s.blockno == n
  }

  predicate Cached(ss: seq<Slot>, device: nat, n: nat) {
    exists i :: 0 <= i < |ss| && Holds(ss[i], device, n)
  }

  // One buffer against the tables; an unreferenced buffer is clean.
  predicate Agrees(s: Slot, T: Tables)
    requires T.Sized()
  {
    && (s.dev == 0 ==> !s.valid && s.refcnt == 0)
    && (s.dev != 0 ==>
          && s.dev == T.device && s.blockno < |T.image|
          && T.refs[s.blockno] == s.refcnt
          && T.view[s.blockno] == (if s.valid then s.data else T.image[s.blockno]))
    && (s.refcnt == 0 ==> !s.locked)
    && (s.valid && s.refcnt == 0 ==> s.data == T.image[s.blockno])
  }

  /** No two buffers hold the same block, and blocks no buffer holds are unreferenced. */
  predicate Coherent(ss: seq<Slot>, T: Tables) {
    && T.Sized()
    && (forall i :: 0 <= i < |ss| ==> Agrees(ss[i], T))
    && (forall i, j :: 0 <= i < j < |ss| && ss[i].dev != 0 && ss[j].dev != 0 ==> ss[i].blockno != ss[j].blockno)
    && (forall n :: 0 <= n < |T.image| && !Cached(ss, T.device, n) ==> T.refs[n] == 0 && T.view[n] == T.image[n])
  }

  // The tables differ at block n only.
  predicate OnlyAt(T: Tables, U: Tables, n: nat)
    requires T.Sized()
  {
    && U.Sized() && |U.image| == |T.image| && U.device == T.device
    && forall m :: 0 <= m < |T.image| && m != n ==>
         U.image[m] == T.image[m] && U.view[m] == T.view[m] && U.refs[m] == T.refs[m]
  }

  /** Changing one buffer and its block's entries together keeps coherence. */
  lemma UpdateCoherent(ss: seq<Slot>, T: Tables, i: nat, s: Slot, U: Tables)
    requires Coherent(ss, T) && i < |ss| && ss[i].dev != 0
    requires s.dev == ss[i].dev && s.blockno == ss[i].blockno
    requires OnlyAt(T, U, s.blockno) && Agrees(s, U)
    ensures Coherent(ss[i := s], U)
  {
    var tt := ss[i := s];
    forall j | 0 <= j < |tt| ensures Agrees(tt[j], U) { assert Agrees(ss[j], T); }
    assert Agrees(ss[i], T);
    assert Holds(tt[i], U.device, s.blockno);
    forall n | Cached(ss, T.device, n) ensures Cached(tt, U.device, n) {
      var j :| 0 <= j < |ss| && Holds(ss[j], T.device, n);
      assert Holds(tt[j], U.device, n);
    }
  }

  /** Recycling an unreferenced buffer for a block that is not cached keeps coherence, and
      changes what bread returns for no block. */
  lemma RecycleCoherent(ss: seq<Slot>, T: Tables, i: nat, n: nat, locked: bool)
    requires Coherent(ss, T) && i < |ss| && ss[i].refcnt == 0 && n < |T.image| && !Cached(ss, T.device, n)
    ensures T.refs[n] == 0
    ensures Coherent(ss[i := Slot(false, T.device, n, locked, 1, ss[i].data)], T.(refs := T.refs[n := 1]))
  {
    var s := Slot(false, T.device, n, locked, 1, ss[i].data);
    var tt := ss[i := s];
    var U := T.(refs := T.refs[n := 1]);
    forall j | 0 <= j < |ss| && ss[j].dev != 0 ensures ss[j].blockno != n {
      assert Agrees(ss[j], T) && !Holds(ss[j], T.device, n);
    }
    forall j | 0 <= j < |tt| ensures Agrees(tt[j], U) { assert Agrees(ss[j], T); }
    assert Agrees(ss[i], T);
    assert Holds(tt[i], U.device, n);
    forall m | Cached(ss, T.device, m) && !Holds(ss[i], T.device, m) ensures Cached(tt, U.device, m) {
      var j :| 0 <= j < |ss| && Holds(ss[j], T.device, m);
      assert Holds(tt[j], U.device, m);
    }
  }

  // The buffer that holds a block is the only one, and counts its references.
  lemma HolderOf(ss: seq<Slot>, T: Tables, i: nat, n: nat)
    requires Coherent(ss, T) && i < |ss| && Holds(ss[i], T.device, n)
    ensures n < |T.refs| && T.refs[n] == ss[i].refcnt && Cached(ss, T.device, n)
    ensures Unlocked(ss, T.device, n) <==> !ss[i].locked
  {
    assert Agrees(ss[i], T);
  }

  lemma Absent(ss: seq<Slot>, T: Tables, n: nat)
    requires Coherent(ss, T) && n < |T.image| && !Cached(ss, T.device, n)
    ensures n < |T.refs| && T.refs[n] == 0 && Unlocked(ss, T.device, n)
  {
  }

  // A filled buffer has what bread returns for its block.
  lemma Contents(ss: seq<Slot>, T: Tables, i: nat)
    requires Coherent(ss, T) && i < |ss| && ss[i].dev == T.device && ss[i].valid
    ensures ss[i].blockno < |T.view| && ss[i].data == T.view[ss[i].blockno]
  {
    assert Agrees(ss[i], T);
  }

  lemma EmptyCoherent(ss: seq<Slot>, device: nat, image: Image)
    requires device != 0
    requires forall i :: 0 <= i < |ss| ==> ss[i] == Slot(false, 0, 0, false, 0, ss[i].data)
    ensures Coherent(ss, Tables(device, image, image, seq(|image|, _ => 0)))
  {
  }

  // s without its i-th element, which becomes the first.
  function ToFront(s: seq<nat>, i: nat): (r: seq<nat>)
    requires i < |s|
    ensures |r| == |s| && r[0] == s[i]
    ensures forall k :: 1 <= k < |r| ==> r[k] == if k <= i then s[k - 1] else s[k]
    ensures forall x :: x in s <==> x in r
  {
    assert s == s[..i] + [s[i]] + s[i + 1..];
    [s[i]] + s[..i] + s[i + 1..]
  }

  const HEAD: nat := NBUF

  predicate Nodes(ring: seq<nat>) {
    && (forall i :: 0 <= i < |ring| ==> ring[i] < NBUF)
    && (forall i, j :: 0 <= i < j < |ring| ==> ring[i] != ring[j])
  }

  // The buffer after, or before, the i-th one; the head closes the ring.
  function After(ring: seq<nat>, i: nat): nat
    requires i < |ring|
  {
    if i + 1 < |ring| then ring[i + 1] else HEAD
  }

  function Before(ring: seq<nat>, i: nat): nat
    requires i < |ring|
  {
    if i == 0 then HEAD else ring[i - 1]
  }

  predicate NextLinks(ring: seq<nat>, next: seq<nat>) {
    && Nodes(ring) && |next| == NBUF + 1
    && next[HEAD] == (if ring == [] then HEAD else ring[0])
    && forall i {:trigger next[ring[i]]} :: 0 <= i < |ring| ==> next[ring[i]] == After(ring, i)
  }

  predicate PrevLinks(ring: seq<nat>, prev: seq<nat>) {
    && Nodes(ring) && |prev| == NBUF + 1
    && prev[HEAD] == (if ring == [] then HEAD else ring[|ring| - 1])
    && forall i {:trigger prev[ring[i]]} :: 0 <= i < |ring| ==> prev[ring[i]] == Before(ring, i)
  }

  /** The prev and next pointers form a ring through the head and the listed buffers, each
      of them once. */
  predicate Linked(ring: seq<nat>, next: seq<nat>, prev: seq<nat>) {
    NextLinks(ring, next) && PrevLinks(ring, prev)
  }

  lemma InsertNodes(ring: seq<nat>, b: nat)
    requires Nodes(ring) && b < NBUF && b !in ring
    ensures Nodes([b] + ring)
  {
    assert forall i :: 1 <= i < |ring| + 1 ==> ([b] + ring)[i] == ring[i - 1];
  }

  lemma InsertNext(ring: seq<nat>, next: seq<nat>, b: nat)
    requires NextLinks(ring, next) && b < NBUF && b !in ring
    ensures NextLinks([b] + ring, next[b := next[HEAD]][HEAD := b])
  {
    var r, n := [b] + ring, next[b := next[HEAD]][HEAD := b];
    InsertNodes(ring, b);
    forall i | 0 <= i < |r| ensures n[r[i]] == After(r, i) {
      if i > 0 {
        assert r[i] == ring[i - 1] && next[ring[i - 1]] == After(ring, i - 1) == After(r, i);
      }
    }
  }

  lemma InsertPrev(ring: seq<nat>, prev: seq<nat>, first: nat, b: nat)
    requires PrevLinks(ring, prev) && b < NBUF && b !in ring
    requires first == if ring == [] then HEAD else ring[0]
    ensures PrevLinks([b] + ring, prev[b := HEAD][first := b])
  {
    var r, p := [b] + ring, prev[b := HEAD][first := b];
    InsertNodes(ring, b);
    forall i {:trigger p[r[i]]} | 0 <= i < |r| ensures p[r[i]] == Before(r, i) {
      InsertPrevAt(ring, prev, first, b, i);
    }
    hide Nodes, Before;
    if ring != [] {
      assert p[HEAD] == prev[HEAD] == ring[|ring| - 1] == r[|r| - 1];
    }
  }

  lemma InsertPrevAt(ring: seq<nat>, prev: seq<nat>, first: nat, b: nat, i: nat)
    requires PrevLinks(ring, prev) && b < NBUF && b !in ring && i <= |ring|
    requires first == if ring == [] then HEAD else ring[0]
    ensures prev[b := HEAD][first := b][([b] + ring)[i]] == Before([b] + ring, i)
  {
    if i > 1 {
      assert prev[ring[i - 1]] == Before(ring, i - 1) && ring[i - 1] != ring[0];
    }
  }

  /** Linking a buffer in behind the head puts it first on the ring. */
  lemma InsertFrontLinked(ring: seq<nat>, next: seq<nat>, prev: seq<nat>, b: nat)
    requires Linked(ring, next, prev) && b < NBUF && b !in ring
    ensures next[HEAD] <= NBUF
    ensures Linked([b] + ring, next[b := next[HEAD]][HEAD := b], prev[b := HEAD][next[HEAD] := b])
  {
    InsertNext(ring, next, b);
    InsertPrev(ring, prev, next[HEAD], b);
  }

  // ring without its i-th buffer.
  function Without(ring: seq<nat>, i: nat): (r: seq<nat>)
    requires i < |ring|
    ensures |r| == |ring| - 1
    ensures forall k :: 0 <= k < i ==> r[k] == ring[k]
    ensures forall k :: i <= k < |r| ==> r[k] == ring[k + 1]
  {
    ring[..i] + ring[i + 1..]
  }

  lemma WithoutNodes(ring: seq<nat>, i: nat)
    requires Nodes(ring) && i < |ring|
    ensures Nodes(Without(ring, i)) && ring[i] !in Without(ring, i)
  {
  }

  lemma UnlinkNext(ring: seq<nat>, next: seq<nat>, i: nat)
    requires NextLinks(ring, next) && i < |ring|
    ensures NextLinks(Without(ring, i), next[Before(ring, i) := After(ring, i)])
  {
    var r, n := Without(ring, i), next[Before(ring, i) := After(ring, i)];
    WithoutNodes(ring, i);
    forall k | 0 <= k < |r| ensures n[r[k]] == After(r, k) {
      var j := if k < i then k else k + 1;
      assert r[k] == ring[j] && next[ring[j]] == After(ring, j);
    }
  }

  lemma UnlinkPrev(ring: seq<nat>, prev: seq<nat>, i: nat)
    requires PrevLinks(ring, prev) && i < |ring|
    ensures PrevLinks(Without(ring, i), prev[After(ring, i) := Before(ring, i)])
  {
    var r, p := Without(ring, i), prev[After(ring, i) := Before(ring, i)];
    WithoutNodes(ring, i);
    UnlinkPrevHead(ring, prev, i);
    hide After, Before, Without, Nodes;
    forall k {:trigger p[r[k]]} | 0 <= k < |r| ensures p[r[k]] == Before(r, k) {
      UnlinkPrevAt(ring, prev, i, k);
    }
  }

  lemma UnlinkPrevHead(ring: seq<nat>, prev: seq<nat>, i: nat)
    requires PrevLinks(ring, prev) && i < |ring|
    ensures After(ring, i) <= NBUF && Before(ring, i) <= NBUF
    ensures var r := Without(ring, i);
            prev[After(ring, i) := Before(ring, i)][HEAD] == if r == [] then HEAD else r[|r| - 1]
  {
    hide Without;
  }

  lemma UnlinkPrevAt(ring: seq<nat>, prev: seq<nat>, i: nat, k: nat)
    requires PrevLinks(ring, prev) && i < |ring| && k < |ring| - 1
    ensures prev[After(ring, i) := Before(ring, i)][Without(ring, i)[k]] == Before(Without(ring, i), k)
  {
    if k == i {
      assert Without(ring, i)[k] == After(ring, i);
    } else {
      var j := if k < i then k else k + 1;
      assert Without(ring, i)[k] == ring[j] && ring[j] != After(ring, i);
      assert prev[ring[j]] == Before(ring, j) == Before(Without(ring, i), k);
    }
  }

  /** Joining a buffer's neighbours to each other and then linking it in behind the head. */
  lemma MoveToFrontLinked(ring: seq<nat>, next: seq<nat>, prev: seq<nat>, i: nat)
    requires Linked(ring, next, prev) && i < |ring|
    ensures next[ring[i]] == After(ring, i) <= NBUF && prev[ring[i]] == Before(ring, i) <= NBUF
    ensures var b := ring[i];
            var n, p := next[Before(ring, i) := After(ring, i)], prev[After(ring, i) := Before(ring, i)];
            n[HEAD] <= NBUF && Linked(ToFront(ring, i), n[b := n[HEAD]][HEAD := b], p[b := HEAD][n[HEAD] := b])
  {
    var b := ring[i];
    LinksAt(ring, next, prev, i);
    WithoutNodes(ring, i);
    UnlinkNext(ring, next, i);
    UnlinkPrev(ring, prev, i);
    InsertFrontLinked(Without(ring, i), next[Before(ring, i) := After(ring, i)],
                      prev[After(ring, i) := Before(ring, i)], b);
    assert ToFront(ring, i) == [b] + Without(ring, i);
  }

  lemma LinksAt(ring: seq<nat>, next: seq<nat>, prev: seq<nat>, i: nat)
    requires Linked(ring, next, prev) && i < |ring|
    ensures Nodes(ring) && |next| == |prev| == NBUF + 1 && next[HEAD] <= NBUF && prev[HEAD] <= NBUF
    ensures next[ring[i]] == After(ring, i) <= NBUF && prev[ring[i]] == Before(ring, i) <= NBUF
  {
  }

  class Cache {
    const disk: Disk
    const device: nat
    const buf: array<Slot>       // struct buf buf[NBUF]
    const next: array<nat>       // the links of buf[0..NBUF], and of the head
    const prev: array<nat>
    ghost var ring: seq<nat>     // the buffers in ring order, from the head on
    ghost var view: Image        // what bread returns for each block
    ghost var refs: seq<nat>     // references to each block's buffer

    ghost function Tabs(): Tables
      reads this`view, this`refs, disk`image
    {
      Tables(device, disk.image, view, refs)
    }

    /** Every buffer is on the ring exactly once. */
    ghost predicate Ring()
      reads this`ring, next, prev
    {
      && next != prev && |ring| == NBUF && Linked(ring, next[..], prev[..])
      && forall b :: 0 <= b < NBUF ==> b in ring
    }

    ghost predicate Separate() {
      && buf as object != next && buf as object != prev && buf as object != disk && buf as object != this
      && disk as object != next && disk as object != prev && disk as object != this
      && this as object != next && this as object != prev
    }

    ghost predicate Valid()
      reads this, buf, next, prev, disk
    {
      && Separate() && Ring() && buf.Length == NBUF
      && Coherent(buf[..], Tabs())
    }

    /** binit */
    constructor (disk: Disk, device: nat)
      requires device != 0
      ensures this.disk == disk && this.device == device
      ensures Valid() && fresh(buf) && fresh(next) && fresh(prev)
      ensures view == disk.image && refs == seq(|disk.image|, _ => 0)
    {
      this.disk, this.device := disk, device;
      buf := new Slot[NBUF](_ => Slot(false, 0, 0, false, 0, seq(WORDS, _ => 0)));
      next := new nat[NBUF + 1](_ => HEAD);
      prev := new nat[NBUF + 1](_ => HEAD);
      ring, view, refs := [], disk.image, seq(|disk.image|, _ => 0);
      new;
      ghost var start := buf[..];
      for b := 0 to NBUF
        invariant |ring| == b && Linked(ring, next[..], prev[..])
        invariant forall c :: 0 <= c < b ==> c in ring
        invariant forall i :: 0 <= i < b ==> ring[i] < b
        invariant buf[..] == start && view == disk.image && refs == seq(|disk.image|, _ => 0)
      {
        InsertFront(b);
      }
      EmptyCoherent(buf[..], device, disk.image);
    }

    // One turn of binit's loop.
    method InsertFront(b: nat)
      requires next.Length == NBUF + 1 == prev.Length && next != prev && b < NBUF
      requires Linked(ring, next[..], prev[..]) && b !in ring
      modifies this`ring, next, prev
      ensures ring == [b] + old(ring) && Linked(ring, next[..], prev[..])
    {
      InsertFrontLinked(ring, next[..], prev[..], b);
      next[b] := next[HEAD];
      prev[b] := HEAD;
      prev[next[HEAD]] := b;
      next[HEAD] := b;
      ring := [b] + ring;
    }

    // bget's first loop: from the most recently used buffer on.
    method Lookup(dev: nat, blockno: nat) returns (b: nat)
      requires Valid() && dev == device
      ensures b <= NBUF && (b == HEAD <==> !Cached(buf[..], device, blockno))
      ensures b != HEAD ==> Holds(buf[b], device, blockno)
    {
      hide Coherent;
      b := next[HEAD];
      ghost var i := 0;
      while b != HEAD
        invariant 0 <= i <= NBUF && b == if i < NBUF then ring[i] else HEAD
        invariant forall j :: 0 <= j < i ==> !Holds(buf[ring[j]], device, blockno)
        decreases NBUF - i
      {
        if buf[b].dev == dev && buf[b].blockno == blockno {
          assert Holds(buf[..][b], device, blockno);
          return;
        }
        LinksAt(ring, next[..], prev[..], i);
        b := next[b];
        i := i + 1;
      }
      forall c | 0 <= c < NBUF ensures !Holds(buf[c], device, blockno) {
        assert c in ring;
        var j :| 0 <= j < NBUF && ring[j] == c;
      }
    }

    // The second loop: backward from the least recently used buffer.
    method FindFree() returns (b: nat)
      requires Valid()
      ensures b <= NBUF && (b == HEAD <==> NoneFree(buf[..]))
      ensures b != HEAD ==> LeastRecent(buf[..], ring, b)
    {
      hide Coherent;
      b := prev[HEAD];
      ghost var i := NBUF - 1;
      while b != HEAD
        invariant -1 <= i < NBUF && b == if i >= 0 then ring[i] else HEAD
        invariant forall j :: i < j < NBUF ==> buf[ring[j]].refcnt > 0
        decreases i + 1
      {
        if buf[b].refcnt == 0 {
          assert LeastRecent(buf[..], ring, b) by {
            assert ring[i] == b && buf[..][b].refcnt == 0;
            assert forall j :: i < j < |ring| ==> buf[..][ring[j]].refcnt > 0;
          }
          return;
        }
        LinksAt(ring, next[..], prev[..], i);
        b := prev[b];
        i := i - 1;
      }
      forall c | 0 <= c < NBUF ensures buf[c].refcnt > 0 {
        assert c in ring;
        var j :| 0 <= j < NBUF && ring[j] == c;
      }
    }

    /** bget: the buffer of a block, locked and with one more reference.  If the block is not
        cached, the least recently used unreferenced buffer is recycled for it; if there is
        none the kernel panics, which is the result HEAD.  If somebody else has the buffer locked,
        the caller has its reference and waits for the lock. */
    method Bget(dev: nat, blockno: nat) returns (b: nat, waits: bool)
      requires Valid() && dev == device && blockno < |disk.image|
      modifies this`refs, buf
      ensures Valid() && b <= NBUF
      ensures b == HEAD <==> old(!Cached(buf[..], device, blockno) && NoneFree(buf[..]))
      ensures b == HEAD ==> refs == old(refs) && buf[..] == old(buf[..])
      ensures b != HEAD ==> refs == old(refs)[blockno := old(refs)[blockno] + 1]
      ensures b != HEAD ==>
        if old(Cached(buf[..], device, blockno))
        then old(Holds(buf[b], device, blockno))
             && buf[..] == old(buf[..])[b := old(buf[b]).(refcnt := old(buf[b]).refcnt + 1, locked := true)]
        else old(LeastRecent(buf[..], ring, b))
             && buf[..] == old(buf[..])[b := Slot(false, dev, blockno, true, 1, old(buf[b]).data)]
      ensures waits <==> old(!Unlocked(buf[..], device, blockno))
      ensures waits ==> b != HEAD && old(buf[b].locked)
    {
      hide Coherent, Linked, LeastRecent, NoneFree;
      ghost var ss, T := buf[..], Tabs();
      waits := false;
      b := Lookup(dev, blockno);
      if b != HEAD {
        HolderOf(ss, T, b, blockno);
        waits := buf[b].locked;
        Share(b);
        return;
      }
      Absent(ss, T, blockno);
      b := FindFree();
      if b != HEAD {
        Unreferenced(ss, ring, b);
        RecycleCoherent(ss, T, b, blockno, true);
        buf[b] := Slot(false, dev, blockno, true, 1, buf[b].data);
        refs := refs[blockno := 1];
        assert buf[..] == ss[b := buf[b]];
      }
    }

    // One more reference to a buffer, and its lock.
    method Share(b: nat)
      requires Valid() && b < NBUF && buf[b].dev == device
      modifies this`refs, buf
      ensures Valid() && buf[..] == old(buf[..])[b := old(buf[b]).(refcnt := old(buf[b]).refcnt + 1, locked := true)]
      ensures buf[b].blockno < |old(refs)| && refs == old(refs)[buf[b].blockno := old(refs)[buf[b].blockno] + 1]
    {
      ghost var ss, T := buf[..], Tabs();
      assert Agrees(ss[b], T);
      buf[b] := buf[b].(refcnt := buf[b].refcnt + 1, locked := true);
      refs := refs[buf[b].blockno := refs[buf[b].blockno] + 1];
      UpdateCoherent(ss, T, b, buf[b], Tabs());
      assert buf[..] == ss[b := buf[b]];
    }

    // The block's contents are read into its buffer.
    method Fill(b: nat)
      requires Valid() && b < NBUF && buf[b].dev == device && !buf[b].valid && buf[b].refcnt > 0
      modifies buf
      ensures Valid() && buf[b].blockno < |disk.image|
      ensures buf[..] == old(buf[..])[b := old(buf[b]).(data := disk.image[buf[b].blockno], valid := true)]
    {
      ghost var ss, T := buf[..], Tabs();
      assert Agrees(ss[b], T);
      buf[b] := buf[b].(data := disk.image[buf[b].blockno], valid := true);
      UpdateCoherent(ss, T, b, buf[b], Tabs());
      assert buf[..] == ss[b := buf[b]];
    }

    /** bread: a locked buffer with the contents of the block; HEAD if bget panics.  A caller that
        has to wait for the lock has its reference only. */
    method Bread(dev: nat, blockno: nat) returns (b: nat, waits: bool)
      requires Valid() && dev == device && blockno < |disk.image|
      modifies this`refs, buf
      ensures Valid() && b <= NBUF
      ensures b == HEAD <==> old(!Cached(buf[..], device, blockno) && NoneFree(buf[..]))
      ensures b == HEAD ==> refs == old(refs) && buf[..] == old(buf[..])
      ensures b != HEAD ==> refs == old(refs)[blockno := old(refs)[blockno] + 1]
      ensures b != HEAD && !waits ==> InUse(buf[b], device, blockno) && buf[b].data == view[blockno]
      ensures b != HEAD ==> buf[..] == old(buf[..])[b := buf[b]]
      ensures b != HEAD && waits ==> buf[b] == old(buf[b]).(refcnt := old(buf[b]).refcnt + 1)
      ensures b != HEAD ==> if old(Cached(buf[..], device, blockno)) then old(Holds(buf[b], device, blockno))
                            else old(LeastRecent(buf[..], ring, b))
      ensures waits <==> old(!Unlocked(buf[..], device, blockno))
    {
      hide Coherent, Linked, LeastRecent, NoneFree;
      b, waits := Bget(dev, blockno);
      if b != HEAD && !waits {
        if !buf[b].valid { Fill(b); }
        Contents(buf[..], Tabs(), b);
      }
    }

    /** The caller stores into the data of a buffer it has locked. */
    method Store(b: nat, data: Block)
      requires Valid() && b < NBUF && InUse(buf[b], device, buf[b].blockno)
      modifies this`view, buf
      ensures Valid() && buf[..] == old(buf[..])[b := old(buf[b]).(data := data)]
      ensures view == old(view)[buf[b].blockno := data]
    {
      ghost var ss, T := buf[..], Tabs();
      assert Agrees(ss[b], T);
      buf[b] := buf[b].(data := data);
      view := view[buf[b].blockno := data];
      UpdateCoherent(ss, T, b, buf[b], Tabs());
      assert buf[..] == ss[b := buf[b]];
    }

    /** bwrite: must be locked. */
    method Bwrite(b: nat)
      requires Valid() && b < NBUF && InUse(buf[b], device, buf[b].blockno)
      modifies disk
      ensures Valid()
      ensures disk.image == Apply(old(disk.image), Write(buf[b].blockno, buf[b].data))
      ensures disk.history == old(disk.history) + [Write(buf[b].blockno, buf[b].data)]
    {
      ghost var ss, T := buf[..], Tabs();
      assert Agrees(ss[b], T);
      disk.WriteBlock(buf[b].blockno, buf[b].data);
      UpdateCoherent(ss, T, b, buf[b], Tabs());
      assert buf[..] == ss[b := buf[b]];
    }

    /** Giving up a reference is allowed while another one remains, or when the disk has the
        buffer's contents: this is what log_write's pin is for. */
    ghost predicate MayDrop(b: nat)
      reads this, buf, disk
      requires buf.Length == NBUF
    {
      && b < NBUF && InUseOrPinned(buf[b], device) && buf[b].blockno < |disk.image|
      && (buf[b].refcnt > 1 || buf[b].data == disk.image[buf[b].blockno])
    }

    /** brelse: unlock, drop the reference, and make the buffer the most recently used one if
        that was the last reference. */
    method Brelse(b: nat)
      requires Valid() && MayDrop(b) && buf[b].locked
      modifies this`refs, this`ring, buf, next, prev
      ensures Valid()
      ensures buf[..] == old(buf[..])[b := old(buf[b]).(locked := false, refcnt := old(buf[b]).refcnt - 1)]
      ensures refs == old(refs)[buf[b].blockno := old(buf[b]).refcnt - 1]
      ensures old(buf[b]).refcnt > 1 ==> ring == old(ring)
      ensures old(buf[b]).refcnt == 1 ==>
                exists i :: 0 <= i < NBUF && old(ring)[i] == b && ring == ToFront(old(ring), i)
    {
      DropLocked(b);
      if buf[b].refcnt == 0 {
        hide Coherent, Linked;
        assert b in ring;
        ghost var i :| 0 <= i < NBUF && ring[i] == b;
        ghost var tt, U := buf[..], Tabs();
        MoveToFront(b, i);
        assert buf[..] == tt && Tabs() == U;
      }
    }

    method DropLocked(b: nat)
      requires Valid() && MayDrop(b) && buf[b].locked
      modifies this`refs, buf
      ensures Valid()
      ensures buf[..] == old(buf[..])[b := old(buf[b]).(locked := false, refcnt := old(buf[b]).refcnt - 1)]
      ensures refs == old(refs)[buf[b].blockno := old(buf[b]).refcnt - 1]
    {
      ghost var ss, T := buf[..], Tabs();
      assert Agrees(ss[b], T);
      buf[b] := buf[b].(locked := false);
      buf[b] := buf[b].(refcnt := buf[b].refcnt - 1);
      refs := refs[buf[b].blockno := buf[b].refcnt];
      UpdateCoherent(ss, T, b, buf[b], Tabs());
      assert buf[..] == ss[b := buf[b]];
    }

    method MoveToFront(b: nat, ghost i: nat)
      requires Ring() && i < NBUF && ring[i] == b
      modifies this`ring, next, prev
      ensures Ring() && ring == ToFront(old(ring), i)
    {
      ghost var n0, p0 := next[..], prev[..];
      MoveToFrontLinked(ring, n0, p0, i);
      prev[next[b]] := prev[b];
      next[prev[b]] := next[b];
      assert next[..] == n0[p0[b] := n0[b]] && prev[..] == p0[n0[b] := p0[b]];
      next[b] := next[HEAD];
      prev[b] := HEAD;
      prev[next[HEAD]] := b;
      next[HEAD] := b;
      ring := ToFront(ring, i);
    }

    /** bpin */
    method Bpin(b: nat)
      requires Valid() && b < NBUF && InUse(buf[b], device, buf[b].blockno)
      modifies this`refs, buf
      ensures Valid() && buf[..] == old(buf[..])[b := old(buf[b]).(refcnt := old(buf[b]).refcnt + 1)]
      ensures refs == old(refs)[buf[b].blockno := old(buf[b]).refcnt + 1]
    {
      ghost var ss, T := buf[..], Tabs();
      assert Agrees(ss[b], T);
      buf[b] := buf[b].(refcnt := buf[b].refcnt + 1);
      refs := refs[buf[b].blockno := buf[b].refcnt];
      UpdateCoherent(ss, T, b, buf[b], Tabs());
      assert buf[..] == ss[b := buf[b]];
    }

    /** bunpin: the caller still holds the buffer locked, or has written it to disk. */
    method Bunpin(b: nat)
      requires Valid() && MayDrop(b) && (buf[b].locked ==> buf[b].refcnt > 1)
      modifies this`refs, buf
      ensures Valid() && buf[..] == old(buf[..])[b := old(buf[b]).(refcnt := old(buf[b]).refcnt - 1)]
      ensures refs == old(refs)[buf[b].blockno := old(buf[b]).refcnt - 1]
    {
      ghost var ss, T := buf[..], Tabs();
      assert Agrees(ss[b], T);
      buf[b] := buf[b].(refcnt := buf[b].refcnt - 1);
      refs := refs[buf[b].blockno := buf[b].refcnt];
      UpdateCoherent(ss, T, b, buf[b], Tabs());
      assert buf[..] == ss[b := buf[b]];
    }
  }

  predicate NoneFree(ss: seq<Slot>) {
    forall j :: 0 <= j < |ss| ==> ss[j].refcnt > 0
  }

  /** b is the unreferenced buffer closest to the least recently used end of the ring. */
  predicate LeastRecent(ss: seq<Slot>, ring: seq<nat>, b: nat) {
    && b < |ss| && ss[b].refcnt == 0
    && exists i :: 0 <= i < |ring| && ring[i] == b
         && forall j :: i < j < |ring| && ring[j] < |ss| ==> ss[ring[j]].refcnt > 0
  }

  lemma Unreferenced(ss: seq<Slot>, ring: seq<nat>, b: nat)
    requires LeastRecent(ss, ring, b)
    ensures b < |ss| && ss[b].refcnt == 0
  {
  }

  // acquiresleep would wait for whoever holds the block's buffer.
  predicate Unlocked(ss: seq<Slot>, device: nat, n: nat) {
    forall j :: 0 <= j < |ss| && Holds(ss[j], device, n) ==> !ss[j].locked
  }

  // A buffer its holder may use: assigned to block n, locked, filled and referenced.
  predicate InUse(s: Slot, device: nat, n: nat) {
    Holds(s, device, n) && s.valid && s.locked && s.refcnt > 0
  }

  predicate InUseOrPinned(s: Slot, device: nat) {
    s.dev == device && s.valid && s.refcnt > 0
  }
}
