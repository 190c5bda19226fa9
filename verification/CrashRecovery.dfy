/** Crash atomicity of the log: what any prefix of a commit, or of a recovery, leaves on disk. */
module CrashRecovery {
  import opened Storage

  function Targets(ws: seq<Write>): (r: seq<nat>)
    ensures |r| == |ws|
  {
    seq(|ws|, i requires 0 <= i < |ws| => ws[i].blockno)
  }

  lemma {:induction false} ReplayAt(d: Image, ws: seq<Write>, b: nat)
    requires b < |d|
    ensures b !in Targets(ws) ==> Replay(d, ws)[b] == d[b]
    ensures b in Targets(ws) ==> Replay(d, ws)[b] == ws[LastIndex(Targets(ws), b)].data
  {
    if ws != [] {
      var n := |ws| - 1;
      assert Targets(ws)[..n] == Targets(ws[..n]);
      assert Targets(ws)[n] == ws[n].blockno;
      ReplayAt(d, ws[..n], b);
    }
  }

  lemma {:induction false} ReplayConcat(d: Image, a: seq<Write>, b: seq<Write>)
    ensures Replay(d, a + b) == Replay(Replay(d, a), b)
  {
    if b == [] {
      assert a + b == a;
    } else {
      var n := |b| - 1;
      assert (a + b)[..|a + b| - 1] == a + b[..n];
      ReplayConcat(d, a, b[..n]);
    }
  }

  lemma ReplayNone(d: Image)
    ensures forall ws: seq<Write> :: Replay(d, ws[..0]) == d
  {
  }

  lemma ReplayMore(d: Image, ws: seq<Write>, w: Write)
    ensures Replay(d, ws + [w]) == Apply(Replay(d, ws), w)
  {
    assert (ws + [w])[..|ws|] == ws;
  }

  lemma ReplayOneMore(d: Image, ws: seq<Write>, k: nat)
    requires k < |ws|
    ensures Replay(d, ws[..k + 1]) == Apply(Replay(d, ws[..k]), ws[k])
  {
    assert ws[..k + 1][..k] == ws[..k];
  }

  /** Writes that stay inside the log's data slots leave the home blocks and the header alone. */
  lemma SlotWritesKeep(d: Image, L: Layout, ws: seq<Write>)
    requires Well(d, L)
    requires forall i :: 0 <= i < |ws| ==> L.start < ws[i].blockno < L.start + L.size
    ensures SameHome(Replay(d, ws), d, L) && Replay(d, ws)[L.start] == d[L.start]
  {
    forall b | 0 <= b < |d| && (b == L.start || L.Home(d, b)) ensures Replay(d, ws)[b] == d[b] {
      ReplayAt(d, ws, b);
    }
  }

  /** An image with an empty header recovers to itself. */
  lemma EmptyRecovers(d: Image, L: Layout)
    requires Well(d, L) && d[L.start][0] == 0
    ensures Recovered(d, L) == d
  {
    assert HeadList(d, L) == [];
  }

  lemma RecoveredAt(d: Image, L: Layout, b: nat)
    requires Well(d, L) && b < |d|
    ensures Recovered(d, L)[b] ==
            if b in HeadList(d, L) then d[L.start + 1 + LastIndex(HeadList(d, L), b)] else d[b]
  {
  }

  lemma SameHeader(d: Image, e: Image, L: Layout)
    requires Well(d, L) && |e| == |d| && e[L.start] == d[L.start]
    ensures Well(e, L) && HeadList(e, L) == HeadList(d, L)
  {
    var h := d[L.start];
    forall i | 1 <= i <= h[0] ensures L.Home(e, h[i]) { assert L.Home(d, h[i]); }
  }

  /** Recovery reads only the header, the listed slots, and the home blocks not listed. */
  lemma RecoveredDependsOn(d: Image, e: Image, L: Layout)
    requires Well(d, L) && |e| == |d| && e[L.start] == d[L.start]
    requires forall s :: L.start < s <= L.start + d[L.start][0] ==> e[s] == d[s]
    requires forall b :: 0 <= b < |d| && L.Home(d, b) && b !in HeadList(d, L) ==> e[b] == d[b]
    ensures Well(e, L) && HeadList(e, L) == HeadList(d, L)
    ensures SameHome(Recovered(e, L), Recovered(d, L), L)
  {
    SameHeader(d, e, L);
    forall b | 0 <= b < |d| && L.Home(d, b) ensures Recovered(e, L)[b] == Recovered(d, L)[b] {
      RecoveredAt(d, L, b);
      RecoveredAt(e, L, b);
      if b in HeadList(d, L) {
        var s := L.start + 1 + LastIndex(HeadList(d, L), b);
        assert e[s] == d[s];
      }
    }
  }

  lemma InstallAt(d: Image, L: Layout, k: nat, b: nat)
    requires Well(d, L) && k <= |HeadList(d, L)| && b < |d|
    ensures var bl := HeadList(d, L);
            var e := Replay(d, InstallWrites(L, bl, d)[..k]);
            && (b !in bl[..k] ==> e[b] == d[b])
            && (b in bl[..k] ==> L.Home(d, b) && e[b] == d[L.start + 1 + LastIndex(bl[..k], b)])
  {
    var bl := HeadList(d, L);
    var ws := InstallWrites(L, bl, d)[..k];
    assert Targets(ws) == bl[..k];
    ReplayAt(d, ws, b);
    if b in bl[..k] { assert L.Home(d, bl[LastIndex(bl[..k], b)]); }
  }

  /** Installing any prefix of what the header lists does not change what recovery yields;
      installing all of it makes the home blocks equal to what recovery yields. */
  lemma InstallPrefix(d: Image, L: Layout, k: nat)
    requires Well(d, L) && k <= |HeadList(d, L)|
    ensures var e := Replay(d, InstallWrites(L, HeadList(d, L), d)[..k]);
            && Well(e, L)
            && e[L.start] == d[L.start]
            && SameHome(Recovered(e, L), Recovered(d, L), L)
            && (k == |HeadList(d, L)| ==> SameHome(e, Recovered(d, L), L))
  {
    hide InstallWrites, Replay, Recovered;
    var bl := HeadList(d, L);
    var e := Replay(d, InstallWrites(L, bl, d)[..k]);
    forall b | 0 <= b < |d| && (!L.Home(d, b) || b !in bl) ensures e[b] == d[b] {
      InstallAt(d, L, k, b);
    }
    RecoveredDependsOn(d, e, L);
    if k == |bl| {
      assert bl[..k] == bl;
      forall b | 0 <= b < |d| && L.Home(d, b) ensures e[b] == Recovered(d, L)[b] {
        InstallAt(d, L, k, b);
        RecoveredAt(d, L, b);
      }
    }
  }

  /** Crash atomicity of recovery: after any prefix of its writes the image is again
      recoverable, to the same home blocks; after all of them the log is empty and the home
      blocks are in place. */
  lemma RecoverPrefix(d: Image, L: Layout, k: nat)
    requires Well(d, L) && k <= |RecoverWrites(d, L)|
    ensures var e := Replay(d, RecoverWrites(d, L)[..k]);
            && Well(e, L)
            && SameHome(Recovered(e, L), Recovered(d, L), L)
            && (k == |RecoverWrites(d, L)| ==> e[L.start][0] == 0 && SameHome(e, Recovered(d, L), L))
  {
    var bl := HeadList(d, L);
    var iw := InstallWrites(L, bl, d);
    var hw := HeadWrite(L, d[L.start], []);
    if k <= |iw| {
      assert RecoverWrites(d, L)[..k] == iw[..k];
      InstallPrefix(d, L, k);
    } else {
      assert RecoverWrites(d, L)[..k] == iw + [hw] && iw[..|iw|] == iw;
      hide InstallWrites, RecoverWrites, Recovered, HeadList;
      InstallPrefix(d, L, |iw|);
      ReplayMore(d, iw, hw);
      var m := Replay(d, iw);
      hide Replay;
      HeadErases(m, L);
      EmptyRecovers(Apply(m, hw), L);
    }
  }

  // The header write_head writes for an empty list.
  lemma HeadErases(m: Image, L: Layout)
    requires Well(m, L)
    ensures var e := Apply(m, HeadWrite(L, m[L.start], []));
            Well(e, L) && e[L.start][0] == 0 && SameHome(e, m, L)
  {
  }

  /** Any number of recoveries cut short, the i-th after cuts[i] block writes. */
  function CutRecoveries(d: Image, L: Layout, cuts: seq<nat>): Image
    requires Well(d, L)
    ensures Well(CutRecoveries(d, L, cuts), L)
    decreases cuts
  {
    if cuts == [] then d else
    var ws := RecoverWrites(d, L);
    var k := if cuts[0] <= |ws| then cuts[0] else |ws|;
    RecoverPrefix(d, L, k);
    CutRecoveries(Replay(d, ws[..k]), L, cuts[1..])
  }

  /** However often recovery itself crashes, the recovery that completes installs the same
      home blocks the first one would have installed. */
  lemma {:induction false} RecoveryIsIdempotent(d: Image, L: Layout, cuts: seq<nat>)
    requires Well(d, L)
    ensures var e := CutRecoveries(d, L, cuts);
            var f := Replay(e, RecoverWrites(e, L));
            Well(f, L) && f[L.start][0] == 0 && SameHome(f, Recovered(d, L), L)
    decreases cuts
  {
    if cuts == [] {
      var ws := RecoverWrites(d, L);
      RecoverPrefix(d, L, |ws|);
      assert ws[..|ws|] == ws;
    } else {
      var ws := RecoverWrites(d, L);
      var k := if cuts[0] <= |ws| then cuts[0] else |ws|;
      RecoverPrefix(d, L, k);
      RecoveryIsIdempotent(Replay(d, ws[..k]), L, cuts[1..]);
    }
  }

  /** The header block write_head writes is good, and reads back as the list it was given. */
  lemma HeadRoundTrip(d: Image, L: Layout, lh: seq<nat>)
    requires Committable(d, L, lh)
    ensures var e := Apply(d, HeadWrite(L, d[L.start], lh));
            Well(e, L) && HeadList(e, L) == lh
  {
    var e := Apply(d, HeadWrite(L, d[L.start], lh));
    var h := e[L.start];
    forall i | 1 <= i <= h[0] ensures h[i] == lh[i - 1] && L.Home(e, h[i]) {
      assert L.Home(d, lh[i - 1]);
    }
    assert HeadList(e, L) == lh;
  }

  lemma SlotFilled(d: Image, L: Layout, lh: seq<nat>, cached: Image, i: nat)
    requires Committable(d, L, lh) && |cached| == |d| && i < |lh|
    ensures Replay(d, LogWrites(L, lh, cached))[L.start + 1 + i] == cached[lh[i]]
  {
    var lw := LogWrites(L, lh, cached);
    assert Targets(lw)[i] == L.start + 1 + i;
    ReplayAt(d, lw, L.start + 1 + i);
  }

  lemma SlotsFilled(d: Image, L: Layout, lh: seq<nat>, cached: Image)
    requires Committable(d, L, lh) && |cached| == |d|
    ensures var m := Replay(d, LogWrites(L, lh, cached));
            && Committable(m, L, lh) && SameHome(m, d, L) && m[L.start] == d[L.start]
            && forall i :: 0 <= i < |lh| ==> m[L.start + 1 + i] == cached[lh[i]]
  {
    var lw := LogWrites(L, lh, cached);
    var m := Replay(d, lw);
    SlotWritesKeep(d, L, lw);
    forall i | 0 <= i < |lh| ensures m[L.start + 1 + i] == cached[lh[i]] {
      SlotFilled(d, L, lh, cached, i);
    }
    hide LogWrites, Replay, GoodHead;
    forall i | 0 <= i < |lh| ensures L.Home(m, lh[i]) { assert L.Home(d, lh[i]); }
  }

  /** Writing the header once the slots are filled switches what recovery yields. */
  lemma HeadSwitches(m: Image, L: Layout, lh: seq<nat>, cached: Image)
    requires Committable(m, L, lh) && |cached| == |m|
    requires forall i :: 0 <= i < |lh| ==> m[L.start + 1 + i] == cached[lh[i]]
    ensures var e := Apply(m, HeadWrite(L, m[L.start], lh));
            Well(e, L) && SameHome(Recovered(e, L), Updated(m, lh, cached), L)
  {
    hide GoodHead, HeadBlock, HeadList, Recovered;
    HeadRoundTrip(m, L, lh);
    var e := Apply(m, HeadWrite(L, m[L.start], lh));
    forall b | 0 <= b < |m| && L.Home(m, b)
      ensures Recovered(e, L)[b] == Updated(m, lh, cached)[b]
    {
      RecoveredAt(e, L, b);
      if b in lh {
        var i := LastIndex(lh, b);
        assert e[L.start + 1 + i] == m[L.start + 1 + i] == cached[lh[i]];
      }
    }
  }

  /** The commit point: the log slots and then the header have reached the disk. */
  lemma CommitPoint(d: Image, L: Layout, lh: seq<nat>, cached: Image)
    requires Committable(d, L, lh) && |cached| == |d|
    ensures var e := Replay(d, MarkWrites(d, L, lh, cached));
            && Well(e, L) && HeadList(e, L) == lh
            && e[L.start] == HeadBlock(d[L.start], lh)
            && (forall i :: 0 <= i < |lh| ==> e[L.start + 1 + i] == cached[lh[i]])
            && SameHome(Recovered(e, L), Updated(d, lh, cached), L)
  {
    hide GoodHead, HeadBlock, LogWrites, Updated, Recovered, HeadList;
    var lw := LogWrites(L, lh, cached);
    var m := Replay(d, lw);
    SlotsFilled(d, L, lh, cached);
    ReplayMore(d, lw, HeadWrite(L, d[L.start], lh));
    HeadRoundTrip(m, L, lh);
    HeadSwitches(m, L, lh, cached);
    SameUpdates(m, d, L, lh, cached);
  }

  lemma SameUpdates(m: Image, d: Image, L: Layout, lh: seq<nat>, cached: Image)
    requires |m| == |d| == |cached| && SameHome(m, d, L)
    ensures SameHome(Updated(m, lh, cached), Updated(d, lh, cached), L)
  {
  }

  /** Crash atomicity of commit.  Cut a commit after any k block writes: recovery then
      installs the old home blocks if the header has not been written, and the new ones, all
      of them, if it has.  A commit that runs to the end leaves the new ones in place. */
  lemma CommitPrefix(d: Image, L: Layout, lh: seq<nat>, cached: Image, k: nat)
    requires Committable(d, L, lh) && |cached| == |d| && d[L.start][0] == 0
    requires k <= |CommitWrites(d, L, lh, cached)|
    ensures var e := Replay(d, CommitWrites(d, L, lh, cached)[..k]);
            && Well(e, L)
            && SameHome(Recovered(e, L), if k <= |lh| then d else Updated(d, lh, cached), L)
            && (k == |CommitWrites(d, L, lh, cached)| ==>
                e[L.start][0] == 0 && SameHome(e, Updated(d, lh, cached), L))
  {
    var cw := CommitWrites(d, L, lh, cached);
    if lh == [] {
      EmptyRecovers(d, L);
    } else {
      var lw := LogWrites(L, lh, cached);
      if k <= |lh| {
        assert cw[..k] == lw[..k];
        SlotWritesKeep(d, L, lw[..k]);
        EmptyRecovers(Replay(d, lw[..k]), L);
      } else {
        CommitTail(d, L, lh, cached, k);
      }
    }
  }

  /** After the commit point a commit does exactly what a recovery would do. */
  lemma CommitIsRecovery(d: Image, L: Layout, lh: seq<nat>, cached: Image)
    requires Committable(d, L, lh) && |cached| == |d| && d[L.start][0] == 0 && lh != []
    ensures var pre := MarkWrites(d, L, lh, cached);
            var e := Replay(d, pre);
            Well(e, L) && CommitWrites(d, L, lh, cached) == pre + RecoverWrites(e, L)
  {
    CommitPoint(d, L, lh, cached);
    var pre := MarkWrites(d, L, lh, cached);
    var e := Replay(d, pre);
    var inst := seq(|lh|, i requires 0 <= i < |lh| => Write(lh[i], cached[lh[i]]));
    assert inst == InstallWrites(L, lh, e);
    assert CommitWrites(d, L, lh, cached) == pre + inst + [HeadWrite(L, e[L.start], [])];
    assert pre + inst + [HeadWrite(L, e[L.start], [])] == pre + (inst + [HeadWrite(L, e[L.start], [])]);
  }

  lemma CommitTail(d: Image, L: Layout, lh: seq<nat>, cached: Image, k: nat)
    requires Committable(d, L, lh) && |cached| == |d| && d[L.start][0] == 0 && lh != []
    requires |lh| < k <= |CommitWrites(d, L, lh, cached)|
    ensures var e := Replay(d, CommitWrites(d, L, lh, cached)[..k]);
            && Well(e, L)
            && SameHome(Recovered(e, L), Updated(d, lh, cached), L)
            && (k == |CommitWrites(d, L, lh, cached)| ==>
                e[L.start][0] == 0 && SameHome(e, Updated(d, lh, cached), L))
  {
    var cw := CommitWrites(d, L, lh, cached);
    var pre := MarkWrites(d, L, lh, cached);
    var c := Replay(d, pre);
    CommitPoint(d, L, lh, cached);
    CommitIsRecovery(d, L, lh, cached);
    var rw := RecoverWrites(c, L);
    var j := k - |pre|;
    assert cw[..k] == pre + rw[..j];
    ReplayConcat(d, pre, rw[..j]);
    RecoverPrefix(c, L, j);
  }
}
