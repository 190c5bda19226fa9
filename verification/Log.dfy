/** log.c over the buffer cache: the loops that write the log, install it and recover it. */
module Log {
  import opened Storage
  import opened CrashRecovery
  import opened BufferCache

  predicate AllUnlocked(ss: seq<Slot>) {
    forall j :: 0 <= j < |ss| ==> !ss[j].locked
  }

  predicate Distinct(s: seq<nat>) {
    forall i, j :: 0 <= i < j < |s| ==> s[i] != s[j]
  }

  /** Every listed block is pinned in the cache; no other block differs from the disk; the log
      area is referenced by nobody. */
  predicate Pinned(T: Tables, L: Layout, lh: seq<nat>) {
    && T.Sized()
    && (forall i :: 0 <= i < |lh| ==> lh[i] < |T.refs| && T.refs[lh[i]] > 0)
    && (forall b :: 0 <= b < |T.image| && b !in lh ==> T.view[b] == T.image[b])
    && (forall b :: L.start <= b < L.start + L.size && b < |T.refs| ==> T.refs[b] == 0)
  }

  /** A referenced block is cached, so bread of it cannot panic; with no buffer unreferenced, an
      unreferenced block is not, so bread of it does. */
  lemma BreadAvailable(ss: seq<Slot>, T: Tables, n: nat)
    requires Coherent(ss, T) && n < |T.image|
    ensures T.Sized()
    ensures T.refs[n] > 0 ==> Cached(ss, T.device, n)
    ensures NoneFree(ss) && T.refs[n] == 0 ==> !Cached(ss, T.device, n)
  {
    if Cached(ss, T.device, n) {
      var j :| 0 <= j < |ss| && Holds(ss[j], T.device, n);
      assert Agrees(ss[j], T);
    }
  }

  /** With only one block referenced, some buffer is free. */
  lemma LoneReference(ss: seq<Slot>, T: Tables, s: nat)
    requires Coherent(ss, T) && |ss| == NBUF && s < NBUF && ss[s].dev == T.device
    requires forall b :: 0 <= b < |T.refs| && b != ss[s].blockno ==> T.refs[b] == 0
    ensures !NoneFree(ss)
  {
    var j := if s == 0 then 1 else 0;
    assert Agrees(ss[j], T) && Agrees(ss[s], T);
    assert ss[j].refcnt == 0;
  }

  /** With no block referenced, every buffer is free. */
  lemma NoReference(ss: seq<Slot>, T: Tables)
    requires Coherent(ss, T) && |ss| == NBUF
    requires forall b :: 0 <= b < |T.refs| ==> T.refs[b] == 0
    ensures !NoneFree(ss)
  {
    assert Agrees(ss[0], T);
    assert ss[0].refcnt == 0;
  }

  /** What a buffer in use says about its block's entries. */
  lemma InUseAgrees(ss: seq<Slot>, T: Tables, b: nat)
    requires Coherent(ss, T) && b < |ss| && ss[b].dev == T.device
    ensures T.Sized() && ss[b].blockno < |T.image| && Agrees(ss[b], T)
    ensures T.refs[ss[b].blockno] == ss[b].refcnt
    ensures forall j :: 0 <= j < |ss| && Holds(ss[j], T.device, ss[b].blockno) ==> j == b
  {
    assert Agrees(ss[b], T);
  }

  lemma CommittableKeeps(d: Image, e: Image, L: Layout, lh: seq<nat>)
    requires Committable(d, L, lh) && |e| == |d| && e[L.start] == d[L.start]
    ensures Committable(e, L, lh)
  {
    SameHeader(d, e, L);
    forall i | 0 <= i < |lh| ensures L.Home(e, lh[i]) { assert L.Home(d, lh[i]); }
  }

  // What the loops use of a committable list.
  lemma ListedAt(d: Image, L: Layout, lh: seq<nat>, i: nat)
    requires Committable(d, L, lh) && i < |lh|
    ensures L.Fits(d) && L.Home(d, lh[i]) && |lh| < L.size && |lh| <= LOGSIZE
  {
  }

  lemma PinnedAt(T: Tables, L: Layout, lh: seq<nat>, i: nat)
    requires Pinned(T, L, lh) && i < |lh|
    ensures T.Sized() && lh[i] < |T.image| && T.refs[lh[i]] > 0
    ensures forall b :: L.start <= b < L.start + L.size && b < |T.refs| ==> T.refs[b] == 0
  {
  }

  // Writing a log block through the cache changes nothing that Pinned speaks of.
  lemma PinnedSlotWrite(T: Tables, L: Layout, lh: seq<nat>, slot: nat, data: Block)
    requires Pinned(T, L, lh) && slot < |T.image|
    ensures Pinned(T.(view := T.view[slot := data], image := T.image[slot := data]), L, lh)
  {
  }

  lemma SameHomeSlot(v: Image, w: Image, L: Layout, slot: nat, data: Block)
    requires SameHome(w, v, L) && L.start <= slot < L.start + L.size && slot < |w|
    ensures SameHome(w[slot := data], v, L)
  {
  }

  lemma AppendOneMore(h: seq<Write>, ws: seq<Write>, k: nat)
    requires k < |ws|
    ensures h + ws[..k + 1] == h + ws[..k] + [ws[k]]
  {
  }

  predicate Listed(v: Image, lh: seq<nat>) {
    forall i :: 0 <= i < |lh| ==> lh[i] < |v|
  }

  lemma ListedAll(T: Tables, L: Layout, lh: seq<nat>)
    requires Pinned(T, L, lh)
    ensures T.Sized() && Listed(T.view, lh)
  {
  }

  lemma CommittableFits(d: Image, L: Layout, lh: seq<nat>)
    requires Committable(d, L, lh)
    ensures Well(d, L) && |lh| <= LOGSIZE && |lh| < L.size
  {
  }

  lemma HeadWriteCommittable(d: Image, L: Layout, lh: seq<nat>)
    requires Committable(d, L, lh)
    ensures var e := Apply(d, HeadWrite(L, d[L.start], lh));
            Committable(e, L, lh) && HeadList(e, L) == lh
  {
    HeadRoundTrip(d, L, lh);
    forall i | 0 <= i < |lh| ensures L.Home(Apply(d, HeadWrite(L, d[L.start], lh)), lh[i]) { assert L.Home(d, lh[i]); }
  }

  // The slots in use agree with the disk and are referenced by nobody.
  predicate SlotsClean(T: Tables, L: Layout, n: nat) {
    && T.Sized() && L.start + 1 + n <= |T.image|
    && forall s :: L.start < s <= L.start + n ==> T.refs[s] == 0 && T.view[s] == T.image[s]
  }

  // From position k on, each listed block appears once and is pinned.
  predicate PinnedOnce(refs: seq<nat>, lh: seq<nat>, k: nat) {
    && Distinct(lh)
    && forall i :: k <= i < |lh| ==> lh[i] < |refs| && refs[lh[i]] > 0
  }

  /** after is before with one reference less to each of the first k listed blocks. */
  predicate Unpinned(before: seq<nat>, after: seq<nat>, lh: seq<nat>, k: nat) {
    && |after| == |before| && k <= |lh|
    && forall b :: 0 <= b < |before| ==> before[b] == after[b] + if b in lh[..k] then 1 else 0
  }

  // Readers see the first k listed blocks as they are on disk and the others as before.
  predicate Shown(base: Image, view: Image, image: Image, lh: seq<nat>, k: nat) {
    && |view| == |image| == |base| && k <= |lh|
    && forall b :: 0 <= b < |base| ==> view[b] == if b in lh[..k] then image[b] else base[b]
  }

  predicate SlotsSame(d: Image, e: Image, L: Layout, n: nat) {
    |e| == |d| && L.start + 1 + n <= |d| && forall s :: L.start < s <= L.start + n ==> e[s] == d[s]
  }

  /** install_trans after k rounds, from tables S to tables T. */
  predicate Installed(S: Tables, T: Tables, L: Layout, lh: seq<nat>, k: nat, recovering: bool) {
    && S.Sized() && k <= |lh| && SlotsClean(T, L, |lh|)
    && SlotsSame(S.image, T.image, L, |lh|) && Shown(S.view, T.view, T.image, lh, k)
    && (if recovering then T.refs == S.refs && forall b :: 0 <= b < |S.refs| ==> S.refs[b] == 0
        else Unpinned(S.refs, T.refs, lh, k) && PinnedOnce(T.refs, lh, k))
  }

  lemma InstalledNone(S: Tables, L: Layout, lh: seq<nat>, recovering: bool)
    requires SlotsClean(S, L, |lh|)
    requires if recovering then forall b :: 0 <= b < |S.refs| ==> S.refs[b] == 0 else PinnedOnce(S.refs, lh, 0)
    ensures Installed(S, S, L, lh, 0, recovering)
  {
  }

  // What a round uses.
  lemma InstalledAt(S: Tables, T: Tables, L: Layout, lh: seq<nat>, k: nat, recovering: bool)
    requires Installed(S, T, L, lh, k, recovering) && k < |lh| && lh[k] < |T.image|
    ensures T.Sized() && |S.image| == |T.image|
    ensures var s := L.start + 1 + k;
            s < |T.image| && T.refs[s] == 0 && T.view[s] == T.image[s] == S.image[s]
    ensures if recovering then forall b :: 0 <= b < |T.refs| ==> T.refs[b] == 0 else T.refs[lh[k]] > 0
  {
  }

  // The tables after one round of install_trans.
  function InstallStep(T: Tables, slot: nat, home: nat, recovering: bool): Tables
    requires slot < |T.image| && T.Sized() && home < |T.refs| && (!recovering ==> T.refs[home] > 0)
  {
    T.(image := T.image[home := T.image[slot]], view := T.view[home := T.image[slot]],
       refs := if recovering then T.refs else T.refs[home := T.refs[home] - 1])
  }

  // Both blocks read, the home block unpinned or not, both released.
  lemma PairBack(R: seq<nat>, slot: nat, home: nat, unpinned: bool)
    requires slot < |R| && home < |R| && slot != home && R[slot] == 0 && (unpinned ==> R[home] > 0)
    ensures var U := R[slot := 1][home := R[home] + 1];
            var W := if unpinned then U[home := U[home] - 1] else U;
            W[slot := 0][home := W[home] - 1] == W[home := W[home] - 1][slot := 0]
            == if unpinned then R[home := R[home] - 1] else R
  {
  }

  lemma RefsOneMore(before: seq<nat>, after: seq<nat>, lh: seq<nat>, k: nat)
    requires Unpinned(before, after, lh, k) && PinnedOnce(after, lh, k) && k < |lh| && lh[k] < |after|
    ensures after[lh[k]] > 0
    ensures var refs := after[lh[k] := after[lh[k]] - 1];
            Unpinned(before, refs, lh, k + 1) && PinnedOnce(refs, lh, k + 1)
  {
    assert lh[..k + 1] == lh[..k] + [lh[k]];
    assert lh[k] !in lh[..k];
  }

  // Writing a home block touches no slot.
  lemma StepSlots(T: Tables, L: Layout, n: nat, slot: nat, home: nat, recovering: bool)
    requires SlotsClean(T, L, n) && L.Home(T.image, home) && n < L.size
    requires slot < |T.image| && (!recovering ==> T.refs[home] > 0)
    ensures SlotsClean(InstallStep(T, slot, home, recovering), L, n)
    ensures SlotsSame(T.image, InstallStep(T, slot, home, recovering).image, L, n)
  {
  }

  lemma ViewOneMore(base: Image, view: Image, image: Image, lh: seq<nat>, k: nat, data: Block)
    requires Shown(base, view, image, lh, k) && k < |lh| && lh[k] < |base|
    ensures Shown(base, view[lh[k] := data], image[lh[k] := data], lh, k + 1)
  {
    assert lh[..k + 1] == lh[..k] + [lh[k]];
  }

  lemma SlotsStay(d: Image, e: Image, f: Image, L: Layout, n: nat)
    requires SlotsSame(d, e, L, n) && SlotsSame(e, f, L, n)
    ensures SlotsSame(d, f, L, n)
  {
  }

  lemma InstalledOneMore(S: Tables, T: Tables, L: Layout, lh: seq<nat>, k: nat, recovering: bool)
    requires Installed(S, T, L, lh, k, recovering) && k < |lh| && L.Home(T.image, lh[k]) && |lh| < L.size
    requires T.Sized() && L.start + 1 + k < |T.image| && (!recovering ==> T.refs[lh[k]] > 0)
    ensures Installed(S, InstallStep(T, L.start + 1 + k, lh[k], recovering), L, lh, k + 1, recovering)
  {
    hide Unpinned, PinnedOnce, SlotsClean, SlotsSame, Shown, InstallStep;
    ShownSized(S.view, T.view, T.image, lh, k);
    ViewOneMore(S.view, T.view, T.image, lh, k, T.image[L.start + 1 + k]);
    if !recovering { RefsOneMore(S.refs, T.refs, lh, k); }
    StepSlots(T, L, |lh|, L.start + 1 + k, lh[k], recovering);
    StepIs(T, L.start + 1 + k, lh[k], recovering);
    SlotsStay(S.image, T.image, InstallStep(T, L.start + 1 + k, lh[k], recovering).image, L, |lh|);
  }

  lemma StepIs(T: Tables, slot: nat, home: nat, recovering: bool)
    requires slot < |T.image| && T.Sized() && home < |T.refs| && (!recovering ==> T.refs[home] > 0)
    ensures var U := InstallStep(T, slot, home, recovering);
            && U.view == T.view[home := T.image[slot]] && U.image == T.image[home := T.image[slot]]
            && U.refs == if recovering then T.refs else T.refs[home := T.refs[home] - 1]
  {
  }

  lemma ShownSized(base: Image, view: Image, image: Image, lh: seq<nat>, k: nat)
    requires Shown(base, view, image, lh, k)
    ensures |view| == |image| == |base|
  {
  }

  lemma InstalledAll(S: Tables, T: Tables, L: Layout, lh: seq<nat>, recovering: bool)
    requires Installed(S, T, L, lh, |lh|, recovering)
    ensures S.Sized() && T.Sized() && |T.image| == |S.image|
    ensures forall b :: 0 <= b < |S.view| ==> T.view[b] == if b in lh then T.image[b] else S.view[b]
    ensures if recovering then T.refs == S.refs else Unpinned(S.refs, T.refs, lh, |lh|)
  {
    assert lh[..|lh|] == lh;
  }

  // The header block is never listed.
  lemma PinnedHead(T: Tables, L: Layout, lh: seq<nat>)
    requires Pinned(T, L, lh) && Committable(T.image, L, lh)
    ensures L.start < |T.refs| && T.refs[L.start] == 0 && T.view[L.start] == T.image[L.start]
  {
    forall i | 0 <= i < |lh| ensures lh[i] != L.start { assert L.Home(T.image, lh[i]); }
  }

  lemma LogWritesKeepHead(d: Image, L: Layout, lh: seq<nat>, v: Image)
    requires Committable(d, L, lh) && |v| == |d|
    ensures Replay(d, LogWrites(L, lh, v))[L.start] == d[L.start]
  {
    SlotsFilled(d, L, lh, v);
  }

  /** The log slots can be installed from: after the commit point, and when booting. */
  lemma MarkedInstallable(T: Tables, L: Layout, lh: seq<nat>, recovering: bool)
    requires Pinned(T, L, if recovering then [] else lh) && Committable(T.image, L, lh)
    requires !recovering ==> Distinct(lh)
    ensures SlotsClean(T, L, |lh|) && (!recovering ==> PinnedOnce(T.refs, lh, 0))
  {
    forall i | 0 <= i < |lh| ensures L.Home(T.image, lh[i]) { }
  }

  /** After installing, nothing differs between cache and disk. */
  lemma InstallLeaves(T: Tables, U: Tables, L: Layout, lh: seq<nat>, recovering: bool)
    requires Pinned(T, L, if recovering then [] else lh)
    requires Committable(T.image, L, lh) && HeadList(T.image, L) == lh
    requires U.Sized() && U.image == Replay(T.image, InstallWrites(L, lh, T.image))
    requires forall b :: 0 <= b < |U.view| ==> U.view[b] == if b in lh then U.image[b] else T.view[b]
    requires if recovering then U.refs == T.refs else Unpinned(T.refs, U.refs, lh, |lh|)
    ensures Pinned(U, L, []) && U.image[L.start] == T.image[L.start]
  {
    hide InstallWrites, Replay, Committable, GoodHead;
    CommittableFits(T.image, L, lh);
    forall b | 0 <= b < |T.image| ensures U.view[b] == U.image[b] {
      if b !in lh { InstallLeavesAt(T, L, lh, b); }
    }
    InstallLeavesAt(T, L, lh, L.start);
    forall b | L.start <= b < L.start + L.size && b < |U.refs| ensures U.refs[b] == 0 {
      InstallLeavesAt(T, L, lh, b);
      assert T.refs[b] == 0;
      assert lh[..|lh|] == lh;
    }
  }

  lemma InstallLeavesAt(T: Tables, L: Layout, lh: seq<nat>, b: nat)
    requires Committable(T.image, L, lh) && HeadList(T.image, L) == lh && b < |T.image|
    ensures b !in lh ==> Replay(T.image, InstallWrites(L, lh, T.image))[b] == T.image[b]
    ensures L.start <= b < L.start + L.size ==> b !in lh
  {
    var iw := InstallWrites(L, lh, T.image);
    assert iw[..|iw|] == iw && lh[..|lh|] == lh;
    InstallAt(T.image, L, |lh|, b);
  }

  lemma NothingToCommit(T: Tables, L: Layout, lh: seq<nat>)
    requires Pinned(T, L, lh) && Committable(T.image, L, lh) && lh == []
    ensures T.Sized() && CommitWrites(T.image, L, lh, T.view) == []
    ensures SameHome(T.image, T.view, L) && Unpinned(T.refs, T.refs, lh, 0)
  {
  }

  lemma CommittableEmpty(d: Image, L: Layout, lh: seq<nat>)
    requires Committable(d, L, lh)
    ensures Committable(d, L, [])
  {
  }

  /** The install and the erasure are what a recovery would write. */
  lemma InstallThenErase(e: Image, L: Layout)
    requires Well(e, L)
    ensures var iw := InstallWrites(L, HeadList(e, L), e);
            var hw := HeadWrite(L, Replay(e, iw)[L.start], []);
            RecoverWrites(e, L) == iw + [hw] && Replay(e, RecoverWrites(e, L)) == Apply(Replay(e, iw), hw)
  {
    var iw := InstallWrites(L, HeadList(e, L), e);
    InstallAt(e, L, |iw|, L.start);
    assert iw[..|iw|] == iw;
    var rw := RecoverWrites(e, L);
    assert rw[..|rw| - 1] == iw;
  }

  lemma CommitTrace(d: Image, L: Layout, lh: seq<nat>, v: Image, h: seq<Write>)
    requires Committable(d, L, lh) && |v| == |d| && d[L.start][0] == 0 && lh != []
    ensures var e := Replay(d, MarkWrites(d, L, lh, v));
            var ws := CommitWrites(d, L, lh, v);
            && Well(e, L) && HeadList(e, L) == lh
            && h + MarkWrites(d, L, lh, v) + RecoverWrites(e, L) == h + ws
            && Replay(e, RecoverWrites(e, L)) == Replay(d, ws)
            && SameHome(Replay(d, ws), Updated(d, lh, v), L)
  {
    hide MarkWrites, InstallWrites, CommitWrites, RecoverWrites, HeadWrite, Updated, SameHome, Committable, Replay;
    CommittableFits(d, L, lh);
    var pre := MarkWrites(d, L, lh, v);
    var e := Replay(d, pre);
    assert Well(e, L) && HeadList(e, L) == lh by { CommitPoint(d, L, lh, v); }
    CommitIsRecovery(d, L, lh, v);
    ReplayConcat(d, pre, RecoverWrites(e, L));
    assert h + pre + RecoverWrites(e, L) == h + (pre + RecoverWrites(e, L));
    var ws := CommitWrites(d, L, lh, v);
    assert ws[..|ws|] == ws;
    CommitPrefix(d, L, lh, v, |ws|);
  }

  /** With nothing unlisted differing, the new home blocks are what the cache shows. */
  lemma UpdatedIsCached(T: Tables, L: Layout, lh: seq<nat>, f: Image)
    requires Pinned(T, L, lh) && SameHome(f, Updated(T.image, lh, T.view), L)
    ensures SameHome(f, T.view, L)
  {
  }

  // Pinned, but for the block an operation has just changed.
  predicate PinnedBut(T: Tables, L: Layout, lh: seq<nat>, x: nat) {
    && T.Sized()
    && (forall i :: 0 <= i < |lh| ==> lh[i] < |T.refs| && T.refs[lh[i]] > 0)
    && (forall b :: 0 <= b < |T.image| && b != x && b !in lh ==> T.view[b] == T.image[b])
    && (forall b :: L.start <= b < L.start + L.size && b < |T.refs| ==> T.refs[b] == 0)
  }

  lemma AbsorbKeeps(T: Tables, L: Layout, lh: seq<nat>, x: nat, refs: seq<nat>)
    requires PinnedBut(T, L, lh, x) && Committable(T.image, L, lh) && Distinct(lh)
    requires L.Home(T.image, x) && T.refs[x] > 0 && |lh| < LOGSIZE && |lh| < L.size - 1
    requires refs == if x in lh then T.refs else T.refs[x := T.refs[x] + 1]
    ensures Pinned(T.(refs := refs), L, Absorb(lh, x)) && Distinct(Absorb(lh, x))
    ensures Committable(T.image, L, Absorb(lh, x))
  {
    var mh := Absorb(lh, x);
    forall i | 0 <= i < |mh| ensures L.Home(T.image, mh[i]) && refs[mh[i]] > 0 {
      if i < |lh| { assert L.Home(T.image, lh[i]); }
    }
  }

  lemma StoreKeeps(T: Tables, L: Layout, lh: seq<nat>, x: nat, data: Block, refs: seq<nat>)
    requires Pinned(T, L, lh) && Committable(T.image, L, lh) && L.Home(T.image, x)
    requires refs == T.refs[x := T.refs[x] + 1]
    ensures PinnedBut(T.(view := T.view[x := data], refs := refs), L, lh, x)
  {
  }

  lemma DropKeeps(T: Tables, L: Layout, lh: seq<nat>, x: nat, refs: seq<nat>)
    requires Pinned(T, L, lh) && Committable(T.image, L, lh) && x in lh && x < |T.refs| && T.refs[x] > 1
    requires refs == T.refs[x := T.refs[x] - 1]
    ensures Pinned(T.(refs := refs), L, lh)
  {
    var i :| 0 <= i < |lh| && lh[i] == x;
    assert L.Home(T.image, lh[i]);
  }

  class Log {
    const cache: Cache
    const L: Layout
    var outstanding: int         // operations between begin_op and end_op
    var committing: bool         // a commit is running; nobody may begin
    var n: nat                   // blocks listed
    const block: array<nat>      // lh.block[LOGSIZE]

    ghost function Lh(): seq<nat>
      reads this`n, block
      requires n <= block.Length
    {
      block[..n]
    }

    // No two names for one object.
    ghost predicate Apart() {
      && block != cache.next && block != cache.prev && block as object != cache.buf
      && block as object != cache.disk && block as object != cache && block as object != this
      && this as object != cache.next && this as object != cache.prev && this as object != cache.buf
      && this as object != cache.disk && this as object != cache
    }

    // The objects and arrays are what they should be, and the list could be committed.
    ghost predicate Shape()
      reads this, block, cache, cache.buf, cache.next, cache.prev, cache.disk
    {
      && Apart()
      && block.Length == LOGSIZE && n <= LOGSIZE
      && cache.Valid()
      && Committable(cache.disk.image, L, Lh())
    }

    // Nobody is inside a buffer.
    ghost predicate Built()
      reads this, block, cache, cache.buf, cache.next, cache.prev, cache.disk
    {
      Shape() && AllUnlocked(cache.buf[..])
    }

    ghost predicate Valid()
      reads this, block, cache, cache.buf, cache.next, cache.prev, cache.disk
    {
      && Built() && Distinct(Lh()) && Pinned(cache.Tabs(), L, Lh())
      && cache.disk.image[L.start][0] == 0
    }

    // bread of a block whose buffer nobody has locked.
    method BreadFree(x: nat) returns (ok: bool, b: nat)
      requires cache.Valid() && x < |cache.disk.image| && Unlocked(cache.buf[..], cache.device, x)
      modifies cache`refs, cache.buf
      ensures cache.Valid() && x < |old(cache.refs)|
      ensures old(cache.refs[x]) > 0 ==> ok
      ensures old(cache.refs[x]) == 0 && old(NoneFree(cache.buf[..])) ==> !ok
      ensures old(!NoneFree(cache.buf[..])) ==> ok
      ensures ok ==> b < NBUF && InUse(cache.buf[b], cache.device, x) && cache.buf[b].data == cache.view[x]
      ensures ok ==> cache.refs == old(cache.refs)[x := old(cache.refs)[x] + 1] && cache.buf[b].refcnt == cache.refs[x]
      ensures ok ==> cache.buf[..] == old(cache.buf[..])[b := cache.buf[b]]
      ensures ok ==> old(cache.buf[b].refcnt == 0 || Holds(cache.buf[b], cache.device, x))
    {
      hide Coherent, Linked;
      BreadAvailable(cache.buf[..], cache.Tabs(), x);
      var waits: bool;
      b, waits := cache.Bread(cache.device, x);
      ok := b != HEAD;
      if ok { InUseAgrees(cache.buf[..], cache.Tabs(), b); }
    }

    /** initlog, up to the call of recover_from_log. */
    constructor (cache: Cache, L: Layout)
      ensures this.cache == cache && this.L == L && fresh(block) && block.Length == LOGSIZE
      ensures n == 0 && outstanding == 0 && !committing
    {
      this.cache, this.L := cache, L;
      outstanding, committing, n := 0, false, 0;
      block := new nat[LOGSIZE];
    }

    // The buffers of a log slot and of a home block, both locked.
    method BreadPair(slot: nat, home: nat) returns (ok: bool, s: nat, h: nat)
      requires cache.Valid() && AllUnlocked(cache.buf[..])
      requires slot < |cache.disk.image| && home < |cache.disk.image| && slot != home
      requires cache.refs[slot] == 0
      modifies cache`refs, cache.buf
      ensures cache.Valid()
      ensures old(cache.refs)[home] > 0 ==> ok == !old(NoneFree(cache.buf[..]))
      ensures old(forall b :: 0 <= b < |cache.refs| ==> cache.refs[b] == 0) ==> ok
      ensures ok ==> s < NBUF && h < NBUF && s != h
      ensures ok ==> InUse(cache.buf[s], cache.device, slot) && cache.buf[s].data == cache.view[slot]
      ensures ok ==> InUse(cache.buf[h], cache.device, home) && cache.buf[h].data == cache.view[home]
      ensures ok ==> cache.buf[s].refcnt == 1 && cache.buf[h].refcnt == old(cache.refs)[home] + 1
      ensures ok ==> forall j :: 0 <= j < NBUF && j != s && j != h ==> !cache.buf[j].locked
      ensures ok ==> cache.refs == old(cache.refs)[slot := 1][home := old(cache.refs)[home] + 1]
    {
      hide Coherent, Linked;
      ok, s, h := false, 0, 0;
      ghost var unused := forall b :: 0 <= b < |cache.refs| ==> cache.refs[b] == 0;
      if unused { NoReference(cache.buf[..], cache.Tabs()); }
      ok, s := BreadFree(slot);
      if !ok { return; }
      if unused { LoneReference(cache.buf[..], cache.Tabs(), s); }
      ok, h := BreadFree(home);
    }

    // The two buffers of a copy and nothing else are locked.
    ghost predicate OnlyLocked(x: nat, y: nat)
      reads cache, cache.buf
    {
      && cache.buf.Length == NBUF && x < NBUF && y < NBUF && x != y
      && InUse(cache.buf[x], cache.device, cache.buf[x].blockno)
      && InUse(cache.buf[y], cache.device, cache.buf[y].blockno)
      && forall j :: 0 <= j < NBUF && j != x && j != y ==> !cache.buf[j].locked
    }

    /** The data of one locked buffer copied to the other, and that one written to disk. */
    method CopyAndWrite(to: nat, from: nat)
      requires cache.Valid() && OnlyLocked(to, from)
      modifies cache`view, cache.buf, cache.disk
      ensures cache.Valid() && OnlyLocked(to, from)
      ensures cache.buf[..] == old(cache.buf[..])[to := old(cache.buf[to]).(data := old(cache.buf[from]).data)]
      ensures var w := Write(cache.buf[to].blockno, cache.buf[from].data);
              && w.blockno < |cache.disk.image|
              && cache.view == old(cache.view)[w.blockno := w.data]
              && cache.disk.history == old(cache.disk.history) + [w]
              && cache.disk.image == Apply(old(cache.disk.image), w)
    {
      hide Coherent, Linked;
      InUseAgrees(cache.buf[..], cache.Tabs(), to);
      cache.Store(to, cache.buf[from].data);
      cache.Bwrite(to);
    }

    /** brelse of both buffers of a copy. */
    method ReleasePair(x: nat, y: nat)
      requires cache.Valid() && OnlyLocked(x, y) && cache.MayDrop(x) && cache.MayDrop(y)
      requires cache.buf[x].blockno != cache.buf[y].blockno
      modifies cache`refs, cache`ring, cache.buf, cache.next, cache.prev
      ensures cache.Valid() && AllUnlocked(cache.buf[..])
      ensures old(cache.buf[x].blockno < |cache.refs| && cache.buf[y].blockno < |cache.refs|)
      ensures cache.refs == old(cache.refs[cache.buf[x].blockno := cache.buf[x].refcnt - 1]
                                          [cache.buf[y].blockno := cache.buf[y].refcnt - 1])
      ensures old(cache.buf[x].refcnt == 1 || cache.buf[y].refcnt == 1) ==> !NoneFree(cache.buf[..])
    {
      hide Coherent, Linked;
      InUseAgrees(cache.buf[..], cache.Tabs(), x);
      InUseAgrees(cache.buf[..], cache.Tabs(), y);
      cache.Brelse(x);
      cache.Brelse(y);
      assert cache.buf[x].refcnt == 0 || cache.buf[y].refcnt == 0
             || old(cache.buf[x].refcnt > 1 && cache.buf[y].refcnt > 1);
    }

    // The first half of a round of write_log, which copies the home block to the slot, or of
    // install_trans, which copies it back: both read, the data copied, the copy written.
    method CopyPair(slot: nat, home: nat, back: bool) returns (ok: bool, s: nat, h: nat)
      requires cache.Valid() && AllUnlocked(cache.buf[..])
      requires slot < |cache.disk.image| && home < |cache.disk.image| && slot != home
      requires cache.refs[slot] == 0
      modifies cache`refs, cache`view, cache.buf, cache.disk
      ensures cache.Valid()
      ensures old(cache.refs)[home] > 0 ==> ok == !old(NoneFree(cache.buf[..]))
      ensures old(forall b :: 0 <= b < |cache.refs| ==> cache.refs[b] == 0) ==> ok
      ensures !ok ==> cache.disk.history == old(cache.disk.history)
      ensures ok ==> OnlyLocked(s, h) && cache.buf[s].blockno == slot && cache.buf[h].blockno == home
      ensures ok ==> cache.buf[s].refcnt == 1 && cache.buf[h].refcnt == old(cache.refs)[home] + 1
      ensures ok ==> cache.refs == old(cache.refs)[slot := 1][home := old(cache.refs)[home] + 1]
      ensures ok ==> var w := if back then Write(home, old(cache.view)[slot]) else Write(slot, old(cache.view)[home]);
                     && cache.view == old(cache.view)[w.blockno := w.data]
                     && cache.disk.history == old(cache.disk.history) + [w]
                     && cache.disk.image == Apply(old(cache.disk.image), w)
                     && cache.buf[s].data == cache.buf[h].data == w.data
    {
      hide Coherent, Linked;
      ok, s, h := BreadPair(slot, home);
      if !ok { return; }
      if back { CopyAndWrite(h, s); } else { CopyAndWrite(s, h); }
    }

    // One round of write_log: slot `tail` of the log gets the cached block.
    method LogOne(tail: nat) returns (ok: bool)
      requires Built() && Pinned(cache.Tabs(), L, Lh()) && tail < n
      modifies cache, cache.buf, cache.next, cache.prev, cache.disk
      ensures ok == !old(NoneFree(cache.buf[..]))
      ensures !ok ==> cache.disk.history == old(cache.disk.history)
      ensures ok ==> Built() && Pinned(cache.Tabs(), L, Lh()) && !NoneFree(cache.buf[..])
      ensures ok ==> cache.refs == old(cache.refs)
      ensures ok ==> cache.view == old(cache.view)[L.start + 1 + tail := old(cache.view)[block[tail]]]
      ensures ok ==> var w := Write(L.start + 1 + tail, old(cache.view)[block[tail]]);
                     && cache.disk.history == old(cache.disk.history) + [w]
                     && cache.disk.image == Apply(old(cache.disk.image), w)
    {
      hide Coherent, Linked, Committable, Pinned;
      var dst, src := L.start + tail + 1, block[tail];
      ghost var T, lh := cache.Tabs(), Lh();
      ListedAt(T.image, L, lh, tail);
      PinnedAt(T, L, lh, tail);
      var to, from;
      ok, to, from := CopyPair(dst, src, false);
      if !ok { return; }
      CommittableKeeps(T.image, cache.disk.image, L, lh);
      PinnedSlotWrite(T, L, lh, dst, T.view[src]);
      PairBack(T.refs, dst, src, false);
      ReleasePair(from, to);
      assert cache.refs == T.refs;
    }

    /** write_log.  It panics exactly when there is something to write and no free buffer to
        write it with; otherwise it issues the slot writes, one by one. */
    method WriteLog() returns (ok: bool)
      requires Built() && Pinned(cache.Tabs(), L, Lh())
      modifies cache, cache.buf, cache.next, cache.prev, cache.disk
      ensures ok == (n == 0 || !old(NoneFree(cache.buf[..])))
      ensures !ok ==> cache.disk.history == old(cache.disk.history)
      ensures ok ==> Built() && Pinned(cache.Tabs(), L, Lh()) && (n > 0 ==> !NoneFree(cache.buf[..]))
      ensures ok ==> cache.refs == old(cache.refs)
      ensures ok ==> SameHome(cache.view, old(cache.view), L)
      ensures ok ==> Listed(old(cache.view), Lh())
      ensures ok ==> var ws := LogWrites(L, Lh(), old(cache.view));
                     && cache.disk.history == old(cache.disk.history) + ws
                     && cache.disk.image == Replay(old(cache.disk.image), ws)
    {
      hide Coherent, Linked, Committable, Pinned, Replay;
      ghost var lh, d, v, h := Lh(), cache.disk.image, cache.view, cache.disk.history;
      ListedAll(cache.Tabs(), L, lh);
      ghost var ws := LogWrites(L, lh, v);
      ReplayNone(d);
      assert h + ws[..0] == h;
      var tail := 0;
      while tail < n
        invariant tail <= n && Built() && Pinned(cache.Tabs(), L, Lh()) && Lh() == lh && n == |lh|
        invariant tail > 0 ==> !NoneFree(cache.buf[..])
        invariant tail > 0 ==> !old(NoneFree(cache.buf[..]))
        invariant tail == 0 ==> cache.buf[..] == old(cache.buf[..])
        invariant cache.refs == old(cache.refs) && SameHome(cache.view, v, L)
        invariant cache.disk.history == h + ws[..tail]
        invariant cache.disk.image == Replay(d, ws[..tail])
      {
        ReplayOneMore(d, ws, tail);
        AppendOneMore(h, ws, tail);
        ListedAt(cache.disk.image, L, lh, tail);
        ghost var w := cache.view;
        ok := LogOne(tail);
        if !ok { return; }
        SameHomeSlot(v, w, L, L.start + 1 + tail, w[block[tail]]);
        tail := tail + 1;
      }
      assert ws[..tail] == ws;
      ok := true;
    }

    // The count, and the loop over the entries, stored into the header's buffer.
    method FillHead(prior: Block) returns (hb: Block)
      requires n <= LOGSIZE == block.Length
      ensures hb == HeadBlock(prior, Lh())
    {
      hb := prior[0 := n];
      var i := 0;
      while i < n
        invariant i <= n && hb[0] == n
        invariant forall k :: 1 <= k <= i ==> hb[k] == block[k - 1]
        invariant forall k :: i < k < WORDS && k > 0 ==> hb[k] == prior[k]
      {
        hb := hb[1 + i := block[i]];
        i := i + 1;
      }
    }

    // The locked buffer b, which nobody else references, stored into, written to disk and released.
    method WriteAndRelease(b: nat, data: Block)
      requires cache.Valid() && b < NBUF && InUse(cache.buf[b], cache.device, cache.buf[b].blockno)
      requires cache.buf[b].refcnt == 1 && forall j :: 0 <= j < NBUF && j != b ==> !cache.buf[j].locked
      modifies cache, cache.buf, cache.next, cache.prev, cache.disk
      ensures cache.Valid() && AllUnlocked(cache.buf[..]) && !NoneFree(cache.buf[..])
      ensures var x := old(cache.buf[b].blockno);
              && x < |old(cache.refs)| && x < |old(cache.view)| && x < |old(cache.disk.image)|
              && cache.refs == old(cache.refs)[x := 0]
              && cache.view == old(cache.view)[x := data]
              && cache.disk.history == old(cache.disk.history) + [Write(x, data)]
              && cache.disk.image == Apply(old(cache.disk.image), Write(x, data))
    {
      hide Coherent, Linked;
      InUseAgrees(cache.buf[..], cache.Tabs(), b);
      cache.Store(b, data);
      cache.Bwrite(b);
      cache.Brelse(b);
      assert cache.buf[b].refcnt == 0;
    }

    /** write_head: the header block with the count and the live entries stored into it. */
    method WriteHead() returns (ok: bool)
      requires Built() && L.start < |cache.refs| && cache.refs[L.start] == 0
      requires |cache.view| == |cache.disk.image| && cache.view[L.start] == cache.disk.image[L.start]
      modifies cache, cache.buf, cache.next, cache.prev, cache.disk
      ensures ok == !old(NoneFree(cache.buf[..]))
      ensures !ok ==> cache.disk.history == old(cache.disk.history)
      ensures ok ==> Built() && !NoneFree(cache.buf[..]) && cache.refs == old(cache.refs)
      ensures ok ==> HeadList(cache.disk.image, L) == Lh()
      ensures ok ==> var w := HeadWrite(L, old(cache.disk.image)[L.start], Lh());
                     && cache.view == old(cache.view)[L.start := w.data]
                     && cache.disk.history == old(cache.disk.history) + [w]
                     && cache.disk.image == Apply(old(cache.disk.image), w)
    {
      hide Coherent, Linked, Committable, HeadBlock, GoodHead;
      ghost var d, lh := cache.disk.image, Lh();
      CommittableFits(d, L, lh);
      BreadAvailable(cache.buf[..], cache.Tabs(), L.start);
      var b, _ := cache.Bread(cache.device, L.start);
      if b == HEAD { return false; }
      InUseAgrees(cache.buf[..], cache.Tabs(), b);
      var hb := FillHead(cache.buf[b].data);
      WriteAndRelease(b, hb);
      HeadWriteCommittable(d, L, lh);
      assert cache.refs == old(cache.refs);
      ok := true;
    }

    // The end of a round of install_trans: bunpin outside recovery, and both brelse.
    method UnpinAndRelease(lbuf: nat, dbuf: nat, recovering: bool, ghost R: seq<nat>)
      requires cache.Valid() && OnlyLocked(lbuf, dbuf)
      requires var slot, home := cache.buf[lbuf].blockno, cache.buf[dbuf].blockno;
               && slot < |R| && home < |R| && slot != home && R[slot] == 0
               && (if recovering then R[home] == 0 else R[home] > 0)
               && cache.refs == R[slot := 1][home := R[home] + 1]
               && cache.buf[lbuf].refcnt == 1 && cache.buf[dbuf].refcnt == R[home] + 1
               && slot < |cache.disk.image| && cache.buf[lbuf].data == cache.disk.image[slot]
               && home < |cache.disk.image| && cache.buf[dbuf].data == cache.disk.image[home]
      modifies cache`refs, cache`ring, cache.buf, cache.next, cache.prev
      ensures cache.Valid() && AllUnlocked(cache.buf[..]) && !NoneFree(cache.buf[..])
      ensures old(cache.buf[dbuf].blockno < |R|)
      ensures cache.refs == old(var home := cache.buf[dbuf].blockno; if recovering then R else R[home := R[home] - 1])
    {
      hide Coherent, Linked;
      PairBack(R, cache.buf[lbuf].blockno, cache.buf[dbuf].blockno, !recovering);
      if !recovering {
        cache.Bunpin(dbuf);
      }
      ReleasePair(lbuf, dbuf);
    }

    // One round of install_trans: slot `tail` of the log goes to its home block.
    method InstallOne(tail: nat, recovering: bool)
      requires Built() && tail < n && L.start + 1 + tail < |cache.disk.image|
      requires cache.Tabs().Sized() && block[tail] < |cache.refs|
      requires cache.refs[L.start + 1 + tail] == 0
      requires cache.view[L.start + 1 + tail] == cache.disk.image[L.start + 1 + tail]
      requires recovering ==> forall b :: 0 <= b < |cache.refs| ==> cache.refs[b] == 0
      requires !recovering ==> cache.refs[block[tail]] > 0 && !NoneFree(cache.buf[..])
      modifies cache, cache.buf, cache.next, cache.prev, cache.disk
      ensures Built() && !NoneFree(cache.buf[..])
      ensures var w := Write(block[tail], old(cache.disk.image)[L.start + 1 + tail]);
              cache.disk.history == old(cache.disk.history) + [w]
      ensures cache.Tabs() == InstallStep(old(cache.Tabs()), L.start + 1 + tail, block[tail], recovering)
    {
      hide Coherent, Linked, Committable;
      ghost var T, lh := cache.Tabs(), Lh();
      ListedAt(T.image, L, lh, tail);
      var slot, home := L.start + tail + 1, block[tail];
      var ok, lbuf, dbuf := CopyPair(slot, home, true);
      CommittableKeeps(T.image, cache.disk.image, L, lh);
      UnpinAndRelease(lbuf, dbuf, recovering, T.refs);
    }

    // install_trans after `tail` rounds, having started from tables S and history h.
    ghost predicate Installing(S: Tables, h: seq<Write>, ws: seq<Write>, tail: nat, recovering: bool)
      reads this, block, cache, cache.buf, cache.next, cache.prev, cache.disk
    {
      && Built() && tail <= n && S.Sized() && L.start + 1 + n <= |S.image|
      && ws == InstallWrites(L, Lh(), S.image)
      && Installed(S, cache.Tabs(), L, Lh(), tail, recovering)
      && (tail > 0 || !recovering ==> !NoneFree(cache.buf[..]))
      && cache.disk.history == h + ws[..tail]
      && cache.disk.image == Replay(S.image, ws[..tail])
    }

    method InstallRound(tail: nat, recovering: bool, ghost S: Tables, ghost h: seq<Write>, ghost ws: seq<Write>)
      requires tail < n && Installing(S, h, ws, tail, recovering)
      modifies cache, cache.buf, cache.next, cache.prev, cache.disk
      ensures Installing(S, h, ws, tail + 1, recovering) && Lh() == old(Lh())
    {
      hide Coherent, Linked, Committable, Installed;
      ghost var T, lh := cache.Tabs(), Lh();
      ListedAt(cache.disk.image, L, lh, tail);
      InstalledAt(S, T, L, lh, tail, recovering);
      ReplayOneMore(S.image, ws, tail);
      AppendOneMore(h, ws, tail);
      InstalledOneMore(S, T, L, lh, tail, recovering);
      InstallOne(tail, recovering);
    }

    /** install_trans.  While recovering nothing is referenced; after a commit's header write
        the listed blocks are pinned, once each, and each pin is dropped here. */
    method InstallTrans(recovering: bool)
      requires Built() && SlotsClean(cache.Tabs(), L, n)
      requires recovering ==> forall b :: 0 <= b < |cache.refs| ==> cache.refs[b] == 0
      requires !recovering ==> PinnedOnce(cache.refs, Lh(), 0) && !NoneFree(cache.buf[..])
      modifies cache, cache.buf, cache.next, cache.prev, cache.disk
      ensures Built() && !NoneFree(cache.buf[..])
      ensures old(L.start + 1 + n <= |cache.disk.image|)
      ensures var ws := InstallWrites(L, Lh(), old(cache.disk.image));
              && cache.disk.history == old(cache.disk.history) + ws
              && cache.disk.image == Replay(old(cache.disk.image), ws)
      ensures cache.Tabs().Sized()
      ensures forall b :: 0 <= b < |cache.view| ==>
                cache.view[b] == if b in Lh() then cache.disk.image[b] else old(cache.view)[b]
      ensures recovering ==> cache.refs == old(cache.refs)
      ensures !recovering ==> Unpinned(old(cache.refs), cache.refs, Lh(), n)
    {
      hide Coherent, Linked, Committable, Installed;
      ghost var S, h, lh := cache.Tabs(), cache.disk.history, Lh();
      CommittableFits(S.image, L, lh);
      ghost var ws := InstallWrites(L, lh, S.image);
      InstalledNone(S, L, lh, recovering);
      assert h + ws[..0] == h;
      var tail := 0;
      while tail < n
        invariant tail <= n == |lh| && Lh() == lh
        invariant Installing(S, h, ws, tail, recovering)
      {
        InstallRound(tail, recovering, S, h, ws);
        tail := tail + 1;
      }
      InstalledAll(S, cache.Tabs(), L, lh, recovering);
      if recovering { NoReference(cache.buf[..], cache.Tabs()); }
      assert ws[..tail] == ws;
    }

    /** commit.  It panics exactly when there is something to commit and no free buffer, before
        it has written anything.  Otherwise it issues exactly the commit's writes, and leaves
        the log empty, the cache clean and each listed block with one reference less. */
    method Commit() returns (ok: bool)
      requires Valid()
      modifies this`n, cache, cache.buf, cache.next, cache.prev, cache.disk
      ensures ok == (old(n) == 0 || !old(NoneFree(cache.buf[..])))
      ensures !ok ==> cache.disk.history == old(cache.disk.history)
      ensures ok ==> Valid() && n == 0 && cache.Tabs().Sized()
      ensures old(|cache.view| == |cache.disk.image|)
      ensures ok ==> var ws := CommitWrites(old(cache.disk.image), L, old(Lh()), old(cache.view));
                     && cache.disk.history == old(cache.disk.history) + ws
                     && cache.disk.image == Replay(old(cache.disk.image), ws)
      ensures ok ==> SameHome(cache.disk.image, old(cache.view), L)
      ensures ok ==> Unpinned(old(cache.refs), cache.refs, old(Lh()), old(n))
    {
      hide Coherent, Linked, Committable, Pinned, SlotsClean, PinnedOnce, Unpinned;
      ghost var S, h, lh := cache.Tabs(), cache.disk.history, Lh();
      ghost var d, v := S.image, S.view;
      ListedAll(S, L, lh);
      CommittableFits(d, L, lh);
      if n == 0 {
        NothingToCommit(S, L, lh);
        assert h + [] == h;
        return true;
      }
      ok := LogAndMark();
      if !ok { return; }
      CommitTrace(d, L, lh, v, h);
      InstallAndErase(false);
      UpdatedIsCached(S, L, lh, cache.disk.image);
      ListedAll(cache.Tabs(), L, []);
    }

    /** install_trans, log.lh.n = 0, write_head: what recovery and the rest of a commit do. */
    method InstallAndErase(recovering: bool)
      requires Built() && Pinned(cache.Tabs(), L, if recovering then [] else Lh()) && (!recovering ==> Distinct(Lh()))
      requires HeadList(cache.disk.image, L) == Lh()
      requires recovering ==> forall b :: 0 <= b < |cache.refs| ==> cache.refs[b] == 0
      requires !recovering ==> !NoneFree(cache.buf[..])
      modifies this`n, cache, cache.buf, cache.next, cache.prev, cache.disk
      ensures Valid() && n == 0
      ensures old(Well(cache.disk.image, L))
      ensures var ws := RecoverWrites(old(cache.disk.image), L);
              && cache.disk.history == old(cache.disk.history) + ws
              && cache.disk.image == Replay(old(cache.disk.image), ws)
      ensures if recovering then cache.refs == old(cache.refs)
        else Unpinned(old(cache.refs), cache.refs, old(Lh()), old(n))
    {
      hide Coherent, Linked, Committable, Pinned, SlotsClean;
      hide PinnedOnce, Unpinned, InstallWrites, Replay, RecoverWrites, GoodHead;
      CommittableFits(cache.disk.image, L, Lh());
      ghost var T, h, lh := cache.Tabs(), cache.disk.history, Lh();
      MarkedInstallable(T, L, lh, recovering);
      InstallTrans(recovering);
      ghost var U := cache.Tabs();
      InstallLeaves(T, U, L, lh, recovering);
      n := 0;
      CommittableEmpty(U.image, L, lh);
      assert Lh() == [];
      PinnedHead(U, L, []);
      var ok := WriteHead();
      PinnedSlotWrite(U, L, [], L.start, HeadBlock(U.image[L.start], []));
      InstallThenErase(T.image, L);
      ghost var iw, hw := InstallWrites(L, lh, T.image), HeadWrite(L, U.image[L.start], []);
      assert h + iw + [hw] == h + (iw + [hw]);
      assert hw.data[0] == 0;
    }

    // write_log and the first write_head.
    method LogAndMark() returns (ok: bool)
      requires Valid() && n > 0
      modifies cache, cache.buf, cache.next, cache.prev, cache.disk
      ensures ok == !old(NoneFree(cache.buf[..]))
      ensures !ok ==> cache.disk.history == old(cache.disk.history)
      ensures ok ==> Built() && !NoneFree(cache.buf[..]) && Pinned(cache.Tabs(), L, Lh())
      ensures old(Committable(cache.disk.image, L, Lh())) && old(|cache.view| == |cache.disk.image|)
      ensures ok ==> cache.refs == old(cache.refs)
      ensures ok ==> var pre := MarkWrites(old(cache.disk.image), L, Lh(), old(cache.view));
                     && cache.disk.history == old(cache.disk.history) + pre
                     && cache.disk.image == Replay(old(cache.disk.image), pre)
    {
      hide Coherent, Linked;
      ghost var d, v, h, lh := cache.disk.image, cache.view, cache.disk.history, Lh();
      ok := WriteLog();
      if !ok { return; }
      ghost var T := cache.Tabs();
      LogWritesKeepHead(d, L, lh, v);
      PinnedHead(T, L, lh);
      ok := WriteHead();
      PinnedSlotWrite(T, L, lh, L.start, HeadBlock(d[L.start], lh));
      ghost var lw, hw := LogWrites(L, lh, v), HeadWrite(L, d[L.start], lh);
      assert (lw + [hw])[..|lw|] == lw;
      assert h + lw + [hw] == h + (lw + [hw]);
    }

    /** read_head: the count and the entries of the header block. */
    method ReadHead()
      requires Built() && n == 0 && Pinned(cache.Tabs(), L, [])
      requires forall b :: 0 <= b < |cache.refs| ==> cache.refs[b] == 0
      modifies this`n, block, cache, cache.buf, cache.next, cache.prev
      ensures Built() && cache.Tabs() == old(cache.Tabs())
      ensures Lh() == HeadList(cache.disk.image, L)
    {
      hide Coherent, Linked;
      ghost var T := cache.Tabs();
      NoReference(cache.buf[..], T);
      var _, b := BreadFree(L.start);
      CopyList(cache.buf[b].data);
      hide Committable;
      InUseAgrees(cache.buf[..], cache.Tabs(), b);
      cache.Brelse(b);
      assert cache.refs == T.refs;
    }

    // The loop of read_head over the header's block numbers.
    method CopyList(lh: Block)
      requires Well(cache.disk.image, L) && lh == cache.disk.image[L.start] && block.Length == LOGSIZE && Apart()
      modifies this`n, block
      ensures n <= LOGSIZE && Lh() == HeadList(cache.disk.image, L) && Committable(cache.disk.image, L, Lh())
    {
      ghost var d := cache.disk.image;
      n := lh[0];
      var i := 0;
      while i < n
        invariant i <= n == lh[0] && n <= LOGSIZE
        invariant forall k :: 0 <= k < i ==> block[k] == lh[1 + k]
        modifies block
      {
        assert L.Home(d, lh[1 + i]);
        block[i] := lh[1 + i];
        i := i + 1;
      }
    }

    /** recover_from_log, on a cache nobody uses yet.  It never panics; it issues exactly the
        recovery's writes and leaves the recovered home blocks in place. */
    method RecoverFromLog()
      requires Built() && n == 0 && Pinned(cache.Tabs(), L, [])
      requires forall b :: 0 <= b < |cache.refs| ==> cache.refs[b] == 0
      modifies this`n, block, cache, cache.buf, cache.next, cache.prev, cache.disk
      ensures Valid() && n == 0 && cache.refs == old(cache.refs)
      ensures old(Well(cache.disk.image, L))
      ensures var ws := RecoverWrites(old(cache.disk.image), L);
              && cache.disk.history == old(cache.disk.history) + ws
              && cache.disk.image == Replay(old(cache.disk.image), ws)
      ensures SameHome(cache.disk.image, Recovered(old(cache.disk.image), L), L)
    {
      hide Coherent, Linked, Pinned, Replay;
      ghost var d := cache.disk.image;
      ReadHead();
      InstallAndErase(true);
      ghost var ws := RecoverWrites(d, L);
      RecoverPrefix(d, L, |ws|);
      assert ws[..|ws|] == ws;
    }

    // log_write's search: where the block is listed, or the end of the list.
    method PlaceOf(x: nat) returns (i: nat)
      requires n <= block.Length
      ensures i <= n && (i < n ==> Lh()[i] == x) && (i == n <==> x !in Lh())
    {
      i := 0;
      while i < n
        invariant i <= n && forall j :: 0 <= j < i ==> block[j] != x
      {
        if block[i] == x { return; }
        i := i + 1;
      }
    }

    // log_write's store, and bpin for a block that was not listed.
    method Enlist(b: nat, i: nat, ghost refs: seq<nat>)
      requires Apart() && cache.Valid() && block.Length == LOGSIZE && n < LOGSIZE && i <= n
      requires b < NBUF && InUse(cache.buf[b], cache.device, cache.buf[b].blockno)
      requires i < n ==> Lh()[i] == cache.buf[b].blockno
      requires i == n <==> cache.buf[b].blockno !in Lh()
      requires var x := cache.buf[b].blockno;
               x < |cache.refs| && refs == if x in Lh() then cache.refs else cache.refs[x := cache.refs[x] + 1]
      modifies this`n, block, cache`refs, cache.buf
      ensures cache.Valid() && n <= LOGSIZE && Lh() == Absorb(old(Lh()), cache.buf[b].blockno) && cache.refs == refs
      ensures var x := cache.buf[b].blockno;
              var fresh_ := if x in old(Lh()) then 0 else 1;
              && x < |old(cache.refs)| && cache.refs == old(cache.refs)[x := old(cache.refs)[x] + fresh_]
              && cache.buf[..] ==
                 old(cache.buf[..])[b := old(cache.buf[b]).(refcnt := old(cache.buf[b]).refcnt + fresh_)]
    {
      hide Coherent, Linked;
      InUseAgrees(cache.buf[..], cache.Tabs(), b);
      block[i] := cache.buf[b].blockno;
      if i == n {
        cache.Bpin(b);
        n := n + 1;
      }
    }

    /** log_write, for a buffer whose changed data is not listed yet.  False is a panic: the
        log is full, which comes before looking for the block to absorb, or no operation
        is running. */
    method LogWrite(b: nat) returns (ok: bool)
      requires Shape() && b < NBUF && InUse(cache.buf[b], cache.device, cache.buf[b].blockno)
      requires L.Home(cache.disk.image, cache.buf[b].blockno)
      requires Distinct(Lh()) && PinnedBut(cache.Tabs(), L, Lh(), cache.buf[b].blockno)
      modifies this`n, block, cache`refs, cache.buf
      ensures ok == !(old(n) >= LOGSIZE || old(n) >= L.size - 1 || outstanding < 1)
      ensures ok ==> Shape() && Distinct(Lh()) && Pinned(cache.Tabs(), L, Lh())
      ensures ok ==> Lh() == Absorb(old(Lh()), cache.buf[b].blockno)
      ensures ok ==> var x := cache.buf[b].blockno;
                     var fresh_ := if x in old(Lh()) then 0 else 1;
                     && x < |old(cache.refs)| && cache.refs == old(cache.refs)[x := old(cache.refs)[x] + fresh_]
                     && cache.buf[..] ==
                        old(cache.buf[..])[b := old(cache.buf[b]).(refcnt := old(cache.buf[b]).refcnt + fresh_)]
    {
      hide Coherent, Linked, Committable, Pinned, PinnedBut, Distinct, Absorb;
      if n >= LOGSIZE || n >= L.size - 1 || outstanding < 1 { return false; }
      ghost var T, lh, x := cache.Tabs(), Lh(), cache.buf[b].blockno;
      InUseAgrees(cache.buf[..], T, b);
      var i := PlaceOf(cache.buf[b].blockno);
      ghost var refs := if x in lh then T.refs else T.refs[x := T.refs[x] + 1];
      AbsorbKeeps(T, L, lh, x, refs);
      Enlist(b, i, refs);
      ok := true;
    }

    /** An operation's typical use: read a block, change it, log it and release it. */
    method Update(x: nat, data: Block) returns (ok: bool)
      requires Valid() && L.Home(cache.disk.image, x)
      modifies this`n, block, cache, cache.buf, cache.next, cache.prev
      ensures ok == (old(n) < LOGSIZE && old(n) < L.size - 1 && outstanding >= 1
                     && old(Cached(cache.buf[..], cache.device, x) || !NoneFree(cache.buf[..])))
      ensures ok ==> Valid() && Lh() == Absorb(old(Lh()), x)
      ensures ok ==> x < |old(cache.view)| && cache.view == old(cache.view)[x := data]
    {
      hide Coherent, Linked, Committable, Pinned, PinnedBut;
      ghost var T, lh := cache.Tabs(), Lh();
      ListedAll(T, L, lh);
      var b, _ := cache.Bread(cache.device, x);
      if b == HEAD { return false; }
      cache.Store(b, data);
      StoreKeeps(T, L, lh, x, data, cache.refs);
      ok := LogWrite(b);
      if !ok { return; }
      if x in lh { PinnedRefs(T, L, lh, x); }
      assert x in Lh();
      assert cache.refs[x] == cache.buf[b].refcnt by { InUseAgrees(cache.buf[..], cache.Tabs(), b); }
      ReleaseLogged(b);
    }

    // brelse after log_write: the pin remains.
    method ReleaseLogged(b: nat)
      requires Shape() && Distinct(Lh()) && Pinned(cache.Tabs(), L, Lh()) && cache.disk.image[L.start][0] == 0
      requires b < NBUF && InUse(cache.buf[b], cache.device, cache.buf[b].blockno)
      requires cache.buf[b].refcnt > 1 && cache.buf[b].blockno in Lh()
      requires forall j :: 0 <= j < NBUF && j != b ==> !cache.buf[j].locked
      modifies cache, cache.buf, cache.next, cache.prev
      ensures Valid() && Lh() == old(Lh()) && cache.view == old(cache.view)
    {
      hide Coherent, Linked, Committable, Pinned;
      ghost var x := cache.buf[b].blockno;
      InUseAgrees(cache.buf[..], cache.Tabs(), b);
      DropKeeps(cache.Tabs(), L, Lh(), x, cache.refs[x := cache.refs[x] - 1]);
      cache.Brelse(b);
    }

    /** One pass of begin_op's loop; false means it goes to sleep. */
    method BeginOp() returns (admitted: bool)
      requires n <= LOGSIZE
      modifies this`outstanding
      ensures admitted == (!committing && n + (old(outstanding) + 1) * MAXOPBLOCKS <= LOGSIZE)
      ensures outstanding == if admitted then old(outstanding) + 1 else old(outstanding)
    {
      if committing {
        admitted := false;
      } else if n + (outstanding + 1) * MAXOPBLOCKS > LOGSIZE {
        admitted := false;
      } else {
        outstanding := outstanding + 1;
        admitted := true;
      }
    }

    // Neither counter nor flag has a part in Valid.
    method SetFlags(count: nat, busy: bool)
      requires Valid()
      modifies this`outstanding, this`committing
      ensures Valid() && outstanding == count && committing == busy
    {
      hide Coherent, Linked, Pinned, Committable, GoodHead;
      outstanding, committing := count, busy;
    }

    /** end_op.  The last operation out commits everything; false is a panic. */
    method EndOp() returns (ok: bool)
      requires Valid() && outstanding > 0
      modifies this`n, this`outstanding, this`committing, cache, cache.buf, cache.next, cache.prev, cache.disk
      ensures outstanding == old(outstanding) - 1
      ensures ok == (!old(committing) && (outstanding == 0 ==> old(n) == 0 || !old(NoneFree(cache.buf[..]))))
      ensures ok ==> Valid() && !committing
      ensures ok && outstanding > 0 ==>
                n == old(n) && cache.disk.history == old(cache.disk.history) && cache.view == old(cache.view)
      ensures old(|cache.view| == |cache.disk.image|)
      ensures ok && outstanding == 0 ==>
                && n == 0 && SameHome(cache.disk.image, old(cache.view), L)
                && cache.disk.history ==
                   old(cache.disk.history) + CommitWrites(old(cache.disk.image), L, old(Lh()), old(cache.view))
    {
      hide Coherent, Linked, Pinned, Committable, SameHome, CommitWrites;
      SetFlags(outstanding - 1, committing);
      ListedAll(cache.Tabs(), L, Lh());
      if committing { return false; }
      if outstanding == 0 {
        SetFlags(0, true);
        ok := Commit();
        if ok { SetFlags(0, false); }
      } else {
        ok := true;
      }
    }
  }

  // A block whose buffer has just been taken was either listed, and pinned, or not.
  lemma PinnedRefs(T: Tables, L: Layout, lh: seq<nat>, x: nat)
    requires Pinned(T, L, lh) && x in lh
    ensures x < |T.refs| && T.refs[x] > 0
  {
  }

  // ---- LOGSIZE equals NBUF ----

  lemma {:induction false} DistinctCovers(hs: seq<nat>, n: nat)
    requires Distinct(hs) && |hs| == n && forall i :: 0 <= i < n ==> hs[i] < n
    ensures forall j :: 0 <= j < n ==> j in hs
  {
    if n > 0 {
      // Move n - 1 to the end and drop it.
      if n - 1 in hs {
        var k :| 0 <= k < n && hs[k] == n - 1;
        var gs := hs[..k] + hs[k + 1..];
        DistinctCovers(gs, n - 1);
        assert forall j :: j in gs ==> j in hs;
      } else {
        var gs := hs[..n - 1];
        assert hs[n - 1] !in gs;
        DistinctCovers(gs, n - 1);
        assert false;
      }
    }
  }

  lemma {:induction false} Holders(ss: seq<Slot>, T: Tables, lh: seq<nat>) returns (hs: seq<nat>)
    requires Coherent(ss, T)
    requires forall i :: 0 <= i < |lh| ==> lh[i] < |T.refs| && T.refs[lh[i]] > 0
    ensures |hs| == |lh|
    ensures forall i :: 0 <= i < |lh| ==> hs[i] < |ss| && Holds(ss[hs[i]], T.device, lh[i])
  {
    hs := [];
    if lh != [] {
      var n := |lh| - 1;
      hs := Holders(ss, T, lh[..n]);
      BreadAvailable(ss, T, lh[n]);
      var j :| 0 <= j < |ss| && Holds(ss[j], T.device, lh[n]);
      hs := hs + [j];
    }
  }

  lemma {:induction false} DistinctFits(a: seq<nat>, b: seq<nat>)
    requires Distinct(a) && forall i :: 0 <= i < |a| ==> a[i] in b
    ensures |a| <= |b|
  {
    if a != [] {
      var n := |a| - 1;
      var k :| 0 <= k < |b| && b[k] == a[n];
      var c := b[..k] + b[k + 1..];
      forall i | 0 <= i < n ensures a[..n][i] in c {
        var j :| 0 <= j < |b| && b[j] == a[i];
        assert j != k;
        assert b[j] == c[if j < k then j else j - 1];
      }
      DistinctFits(a[..n], c);
    }
  }

  // used lists the referenced blocks, each once.
  predicate Lists(refs: seq<nat>, used: seq<nat>) {
    && Distinct(used)
    && (forall i :: 0 <= i < |used| ==> used[i] < |refs|)
    && forall b :: 0 <= b < |refs| ==> (refs[b] > 0 <==> b in used)
  }

  /** There is no free buffer exactly when as many blocks are referenced as there are buffers. */
  lemma NoneFreeExactly(ss: seq<Slot>, T: Tables, used: seq<nat>)
    requires Coherent(ss, T) && |ss| == NBUF && Lists(T.refs, used)
    ensures |used| <= NBUF && (NoneFree(ss) <==> |used| == NBUF)
  {
    forall i | 0 <= i < |used| ensures T.refs[used[i]] > 0 { assert used[i] in used; }
    var hs := Holders(ss, T, used);
    assert Distinct(hs);
    var all := seq(NBUF, i requires 0 <= i < NBUF => i);
    forall i | 0 <= i < |hs| ensures hs[i] in all { assert all[hs[i]] == hs[i]; }
    DistinctFits(hs, all);
    if |used| == NBUF {
      DistinctCovers(hs, NBUF);
      forall j | 0 <= j < |ss| ensures ss[j].refcnt > 0 {
        assert j in hs;
        assert Agrees(ss[j], T);
      }
    }
    if NoneFree(ss) { AllHeld(ss, T, used); }
  }

  lemma AllHeld(ss: seq<Slot>, T: Tables, used: seq<nat>)
    requires Coherent(ss, T) && |ss| == NBUF && Lists(T.refs, used) && NoneFree(ss)
    ensures NBUF <= |used|
  {
    var bs := seq(NBUF, i requires 0 <= i < NBUF => ss[i].blockno);
    forall i | 0 <= i < NBUF ensures bs[i] in used && ss[i].dev == T.device {
      assert Agrees(ss[i], T);
    }
    forall i, j | 0 <= i < j < NBUF ensures bs[i] != bs[j] {
      assert Holds(ss[i], T.device, ss[i].blockno);
    }
    DistinctFits(bs, used);
  }

  /** With nothing referenced but the listed blocks and `held` others, the commit of a group panics
      exactly when the two together are as many as the buffers: for a group alone, when it has the
      largest size that begin_op admits. */
  lemma CommitLacksBuffer(ss: seq<Slot>, T: Tables, L: Layout, lh: seq<nat>, held: seq<nat>)
    requires Coherent(ss, T) && |ss| == NBUF && Pinned(T, L, lh) && Lists(T.refs, lh + held)
    ensures NoneFree(ss) <==> |lh| + |held| == NBUF
    ensures held == [] ==> (NoneFree(ss) <==> |lh| == LOGSIZE)
  {
    NoneFreeExactly(ss, T, lh + held);
  }
}
