/** The order of the ring of buffers: the time of the last release. */
module CacheOrder {
  import opened BufferCache
  import Lru

  // The ring after buffers have given up their last reference, in order.
  function Released(ring: seq<nat>, bs: seq<nat>): seq<nat> {
    if bs == [] then ring else Lru.Touch(Released(ring, bs[..|bs| - 1]), bs[|bs| - 1])
  }

  lemma {:induction false} WithoutIs(ring: seq<nat>, i: nat)
    requires i < |ring| && forall j, k :: 0 <= j < k < |ring| ==> ring[j] != ring[k]
    ensures Lru.Without(ring, ring[i]) == Without(ring, i)
  {
    if i == 0 {
      Lru.Absent(ring[1..], ring[0]);
    } else {
      WithoutIs(ring[1..], i - 1);
      assert Without(ring, i) == [ring[0]] + Without(ring[1..], i - 1);
    }
  }

  /** What brelse does to the ring is to put the buffer first. */
  lemma FrontIsTouch(ring: seq<nat>, i: nat)
    requires Nodes(ring) && i < |ring|
    ensures ToFront(ring, i) == Lru.Touch(ring, ring[i])
  {
    WithoutIs(ring, i);
    assert ToFront(ring, i) == [ring[i]] + Without(ring, i);
  }

  function Reverse(s: seq<nat>): (r: seq<nat>)
    ensures |r| == |s| && forall x :: x in r <==> x in s
  {
    if s == [] then [] else
    assert s == [s[0]] + s[1..];
    Reverse(s[1..]) + [s[0]]
  }

  lemma {:induction false} FreshOrder(ring: seq<nat>)
    requires forall j, k :: 0 <= j < k < |ring| ==> ring[j] != ring[k]
    ensures Lru.Recency(Reverse(ring)) == ring
  {
    if ring != [] {
      FreshOrder(ring[1..]);
      var r := Reverse(ring[1..]) + [ring[0]];
      assert r[..|r| - 1] == Reverse(ring[1..]);
      Lru.Absent(ring[1..], ring[0]);
      assert ring == [ring[0]] + ring[1..];
    }
  }

  /** Whatever buffers are released, in whatever order, the ring lists all buffers by the time of their
      last release, the latest first; those not yet released come last, as binit left them. */
  lemma {:induction false} RingIsRecency(ring: seq<nat>, bs: seq<nat>)
    requires forall j, k :: 0 <= j < k < |ring| ==> ring[j] != ring[k]
    requires forall b :: b in bs ==> b in ring
    ensures Released(ring, bs) == Lru.Recency(Reverse(ring) + bs)
    ensures forall x :: x in Released(ring, bs) <==> x in ring
    ensures Lru.Ordered(Released(ring, bs), Reverse(ring) + bs)
  {
    hide Lru.Ordered, Lru.Without, Lru.Recency, Lru.LastUse, Reverse;
    var uses := Reverse(ring) + bs;
    if bs == [] {
      FreshOrder(ring);
      assert uses == Reverse(ring);
    } else {
      var n := |bs| - 1;
      RingIsRecency(ring, bs[..n]);
      assert uses[..|uses| - 1] == Reverse(ring) + bs[..n] && uses[|uses| - 1] == bs[n];
      OneMore(uses);
    }
    Lru.RecencyIsLru(uses);
  }

  lemma OneMore(uses: seq<nat>)
    requires uses != []
    ensures Lru.Recency(uses) == Lru.Touch(Lru.Recency(uses[..|uses| - 1]), uses[|uses| - 1])
  {
  }

  /** The buffer recycled was released before every other one that nobody references. */
  lemma OldestFirst(ring: seq<nat>, bs: seq<nat>, ss: seq<Slot>, b: nat, c: nat)
    requires forall j, k :: 0 <= j < k < |ring| ==> ring[j] != ring[k]
    requires forall x :: x in bs ==> x in ring
    requires LeastRecent(ss, Released(ring, bs), b)
    requires c in ring && c < |ss| && ss[c].refcnt == 0 && c != b
    ensures b < |ss| && ss[b].refcnt == 0
    ensures Lru.LastUse(Reverse(ring) + bs, c) > Lru.LastUse(Reverse(ring) + bs, b)
  {
    hide Released, Lru.LastUse, Lru.Ordered, Reverse;
    RingIsRecency(ring, bs);
    var r := Released(ring, bs);
    var i :| 0 <= i < |r| && r[i] == b && forall j :: i < j < |r| && r[j] < |ss| ==> ss[r[j]].refcnt > 0;
    var k :| 0 <= k < |r| && r[k] == c;
    OlderAt(r, Reverse(ring) + bs, ss, i, k);
  }

  lemma OlderAt(r: seq<nat>, uses: seq<nat>, ss: seq<Slot>, i: nat, k: nat)
    requires Lru.Ordered(r, uses) && i < |r| && k < |r| && r[k] != r[i]
    requires forall j :: i < j < |r| && r[j] < |ss| ==> ss[r[j]].refcnt > 0
    requires r[k] < |ss| && ss[r[k]].refcnt == 0
    ensures Lru.LastUse(uses, r[k]) > Lru.LastUse(uses, r[i])
  {
    hide Lru.LastUse;
  }
}
