/** umalloc.c: Kernighan and Ritchie's allocator over a circular free list. */
module Umalloc {
  import opened FreeRing

  const MORE: nat := 4096          // the least number of headers to ask sbrk for

  // u is in a block that has been handed out.
  ghost predicate InLive(live: map<nat, nat>, u: nat) {
    exists a :: a in live && a <= u < a + live[a]
  }

  // The blocks handed out have the sizes their headers say, and overlap neither each other nor the list's.
  ghost predicate Handed(h: Headers, list: seq<nat>, live: map<nat, nat>, top: nat) {
    && (forall a :: a in live ==>
          a in h.size && h.size[a] == live[a] > 0 && BASE < a && a + live[a] <= top && Clear(h, list, a, live[a]))
    && (forall a, b :: a in live && b in live && a < b ==> a + live[a] <= b)
  }

  predicate Capped(h: Headers, list: seq<nat>, top: nat) {
    forall k :: 0 <= k < |list| && list[k] in h.size ==> list[k] + h.size[list[k]] <= top
  }

  ghost predicate Covered(h: Headers, list: seq<nat>, live: map<nat, nat>, got: set<nat>) {
    forall u: nat :: u in got <==> Free(h, list, u) || InLive(live, u)
  }

  /** The books: every header that sbrk has given is in exactly one block, on the list or handed
      out, and blocks do not overlap. */
  ghost predicate Books(h: Headers, list: seq<nat>, live: map<nat, nat>, got: set<nat>, top: nat) {
    Handed(h, list, live, top) && Capped(h, list, top) && Covered(h, list, live, got) && BASE < top
  }

  // The headers from p up to p + n.
  function Span(p: nat, n: nat): (s: set<nat>)
    ensures forall u :: u in s <==> p <= u < p + n
  {
    if n == 0 then {} else Span(p, n - 1) + {p + n - 1}
  }

  class Allocator {
    var ptr: map<nat, nat>         // the s.ptr and s.size of each header
    var size: map<nat, nat>
    var freep: nat
    var top: nat                   // the break, in headers
    ghost var list: seq<nat>       // the free list's blocks, base first
    ghost var live: map<nat, nat>  // the blocks handed out, with their sizes
    ghost var got: set<nat>        // every header sbrk has given

    ghost function Heads(): Headers
      reads this
    {
      Headers(ptr, size)
    }

    ghost predicate Valid()
      reads this
    {
      if freep == 0 then list == [] && live == map[] && got == {} && BASE < top
      else Ring(Heads(), list) && freep in list && Books(Heads(), list, live, got, top)
    }

    constructor (heap: nat)
      requires heap > BASE
      ensures Valid() && freep == 0 && top == heap && live == map[]
    {
      ptr, size, freep, top, list, live, got := map[], map[], 0, heap, [], map[], {};
    }

    /** free's search loop: from freep around the circle to the block after which bp belongs. */
    method Search(bp: nat, n: nat) returns (p: nat, ghost j: nat)
      requires Ring(Heads(), list) && freep in list && Clear(Heads(), list, bp, n) && n > 0
      ensures j < |list| && p == list[j] > 0 && Fits(list, j, bp)
    {
      hide Ascends, Clear;
      ghost var start: nat :| start < |list| && list[start] == freep;
      p, j := freep, start;
      ghost var place := PlaceOf(Heads(), list, bp, n);
      PtrAt(Heads(), list, j);
      while !(bp > p && bp < ptr[p])
        invariant j < |list| && p == list[j] && p in ptr && ptr[p] == After(list, j)
        decreases Left(j, place, |list|)
      {
        Stops(Heads(), list, j, bp, n, place);
        if p >= ptr[p] && (bp > p || bp < ptr[p]) {
          break;
        }
        p := ptr[p];
        j := if j + 1 < |list| then j + 1 else 0;
        PtrAt(Heads(), list, j);
      }
      Stops(Heads(), list, j, bp, n, place);
      AboveBase(Heads(), list, j);
    }

    // free's writes, once the place is known.
    method PutBack(p: nat, bp: nat)
      requires p in ptr && p in size && bp in size && ptr[p] in size && ptr[p] in ptr
      modifies this`ptr, this`size
      ensures Heads() == Inserted(old(Heads()), p, bp)
    {
      InsertedIs(Heads(), p, bp);
      var next := ptr[p];
      if bp + size[bp] == next {
        size := size[bp := size[bp] + size[next]];
        ptr := ptr[bp := ptr[next]];
      } else {
        ptr := ptr[bp := next];
      }
      if p + size[p] == bp {
        size := size[p := size[p] + size[bp]];
        ptr := ptr[p := ptr[bp]];
      } else {
        ptr := ptr[p := bp];
      }
    }

    /** free: the block goes back to its place on the list, joined with any neighbour it touches. */
    method Free(ap: nat)
      requires Valid() && ap > 0 && ap - 1 in live
      modifies this
      ensures Valid() && live == old(live) - {(ap - 1) as nat} && got == old(got) && top == old(top) && freep != 0
      ensures HasBlock(Heads(), list, old(live)[ap - 1])
      ensures FreedAt(old(Heads()), old(list), ap - 1, Heads(), list, freep)
    {
      hide Ascends, Linked, Books, Inserted, InsertedList, HasBlock;
      ghost var h0, list0 := Heads(), list;
      var bp: nat := ap - 1;
      KnownLive(Heads(), list, live, got, top, bp);
      var p;
      ghost var j;
      p, j := Search(bp, size[bp]);
      InsertKeeps(Heads(), list, j, bp);
      FreeBooks(Heads(), list, live, got, top, j, bp);
      Joins(Heads(), list, j, bp);
      PutIs(h0, list0, j, bp, p);
      PutBack(p, bp);
      freep := p;
      list := InsertedList(old(Heads()), list, j, bp);
      live := live - {bp};
    }

    /** morecore, where sbrk gives headers gap past the break, or refuses: on success there is a
        block of at least nu headers on the list. */
    method Morecore(nu: nat, given: bool, gap: nat) returns (p: nat)
      requires Valid() && freep != 0
      modifies this
      ensures Valid() && live == old(live) && freep != 0
      ensures p == if given then freep else 0
      ensures !given ==> got == old(got) && list == old(list) && Heads() == old(Heads()) && freep == old(freep)
      ensures given ==> HasBlock(Heads(), list, nu)
      ensures given ==> var n := if nu < 4096 then 4096 else nu;
                        got == old(got) + Span(old(top) + gap, n) && top == old(top) + gap + n
    {
      hide Ascends, Linked, Books, HasBlock;
      var n := if nu < MORE then MORE else nu;
      if !given {
        return 0;
      }
      var hp := top + gap;
      MoreBooks(Heads(), list, live, got, top, hp, n);
      top := hp + n;
      size := size[hp := n];
      ghost var was := live;
      live := live[hp := n];
      got := got + Span(hp, n);
      Free(hp + 1);
      assert live == was;
      Larger(Heads(), list, n, nu);
      p := freep;
    }

    /** malloc: the first block at or around from freep->ptr that is large enough, whole or its end,
        asking sbrk once if there is none.  It fails exactly when no block is large enough and sbrk
        refuses; otherwise nothing handed out before changes, and the new block is as large as asked. */
    method Malloc(nbytes: nat, given: bool, gap: nat) returns (r: nat)
      requires Valid() && nbytes < 0x7FFF_0000
      modifies this
      ensures Valid() && freep != 0
      ensures r == 0 <==> !given && !HasBlock(old(Heads()), old(list), Units(nbytes))
      ensures r == 0 ==> live == old(live) && got == old(got)
      ensures r != 0 ==> r - 1 !in old(live) && live == old(live)[(r - 1) as nat := Units(nbytes)] && got >= old(got)
      ensures HasBlock(old(Heads()), old(list), Units(nbytes)) ==>
                FirstFrom(old(Heads()), old(list), old(freep), Units(nbytes), freep, r)
    {
      hide Ascends, Linked, Books, HasBlock, BigAt, Units, FreeRing.Free;
      UnitsIs(nbytes);
      var nunits := (nbytes + 15) / 16 + 1;
      if freep == 0 {
        Start();
      }
      ghost var h0, list0, freep0 := Heads(), list, freep;
      SameBlocks(old(Heads()), old(list), h0, list0, nunits);
      var prevp := freep;
      ghost var start: nat :| start < |list| && list[start] == freep;
      ghost var i: nat := start;
      PtrAt(Heads(), list, i);
      var p := ptr[prevp];
      ghost var more := false;
      while true
        invariant Valid() && freep != 0 && live == old(live) && got >= old(got) && Ring(Heads(), list)
        invariant start < |list| && i < |list| && list[start] == freep && list[i] == prevp && p == After(list, i)
        invariant forall k: nat :: Passed(start, i, k) ==> !BigAt(Heads(), list, k, nunits)
        invariant more ==> given && HasBlock(Heads(), list, nunits) && !HasBlock(h0, list0, nunits)
        invariant !more ==> list == list0 && Heads() == h0 && got == old(got) && freep == freep0
        decreases !more, Steps(start, i, |list|)
      {
        ghost var k := if i + 1 < |list| then i + 1 else 0;
        PtrAt(Heads(), list, k);
        if size[p] >= nunits {
          NotBase(Heads(), list, k, nunits);
          Found(Heads(), list, k, nunits);
          ghost var found := !more;
          r := Take(prevp, p, nunits, k);
          if found { assert FirstAt(h0, list0, start, k, nunits, freep, r); }
          return;
        }
        TooSmall(Heads(), list, k, nunits);
        if p == freep {
          SameStart(Heads(), list, k, start);
          NoBlock(Heads(), list, start, i, nunits);
          p := Morecore(nunits, given, gap);
          if p == 0 {
            return 0;
          }
          start :| start < |list| && list[start] == freep;
          i := start;
          more := true;
        } else {
          PassedMore(Heads(), list, start, i, k, nunits);
          i := k;
        }
        prevp := p;
        PtrAt(Heads(), list, i);
        p := ptr[p];
      }
    }

    // The first call of malloc: the list is base alone.
    method Start()
      requires Valid() && freep == 0
      modifies this
      ensures Valid() && freep == BASE && list == [BASE] && live == old(live) && got == old(got) && top == old(top)
      ensures Heads().size == old(size)[BASE := 0]
    {
      ptr := ptr[BASE := BASE];
      size := size[BASE := 0];
      freep := BASE;
      list := [BASE];
      forall u: nat ensures !FreeRing.Free(Heads(), list, u) && !InLive(live, u) { }
    }

    // What malloc does with a block that is large enough: list[k] is p, after prevp.
    method Take(prevp: nat, p: nat, n: nat, ghost k: nat) returns (r: nat)
      requires Valid() && freep != 0 && 0 < k < |list| && list[k] == p && list[k - 1] == prevp && n > 0
      requires p in size && size[p] >= n
      modifies this
      ensures Valid() && freep != 0 && r != 0 && got == old(got)
      ensures r - 1 !in old(live) && live == old(live)[(r - 1) as nat := n]
      ensures freep == prevp && r == EndOf(p, old(size)[p], n) + 1
    {
      hide Ascends, Linked, Books, FreeRing.Free, Minus;
      PtrAt(Heads(), list, k);
      AboveBase(Heads(), list, k - 1);
      if size[p] == n {
        UnlinkKeeps(Heads(), list, k);
        WholeBooks(Heads(), list, live, got, top, k);
        ptr := ptr[prevp := ptr[p]];
        list := Minus(list, k);
        live := live[p := n];
        assert list[k - 1] == prevp;
        freep := prevp;
        r := p + 1;
      } else {
        SplitKeeps(Heads(), list, k, n);
        SplitBooks(Heads(), list, live, got, top, k, n);
        size := size[p := size[p] - n];
        var q := p + size[p];
        size := size[q := n];
        live := live[q := n];
        freep := prevp;
        assert list[k - 1] == prevp;
        r := q + 1;
      }
    }
  }

  // nunits, in Headers of 16 bytes: the payload after the header holds nbytes.
  function Units(nbytes: nat): nat {
    (nbytes + 15) / 16 + 1
  }

  lemma UnitsIs(nbytes: nat)
    ensures Units(nbytes) == (nbytes + 15) / 16 + 1 && Units(nbytes) > 0
    ensures nbytes <= (Units(nbytes) - 1) * 16 < nbytes + 16
  {
  }

  // The blocks from start on, up to i, going around.
  predicate Passed(start: nat, i: nat, k: nat) {
    if start <= i then start < k <= i else k > start || k <= i
  }

  function Steps(start: nat, i: nat, n: nat): int {
    if i >= start then n - (i - start) else start - i
  }

  lemma TooSmall(h: Headers, list: seq<nat>, k: nat, n: nat)
    requires k < |list| && list[k] in h.size && h.size[list[k]] < n
    ensures !BigAt(h, list, k, n)
  {
  }

  lemma NotBase(h: Headers, list: seq<nat>, k: nat, n: nat)
    requires Ascends(h, list) && k < |list| && list[k] in h.size && h.size[list[k]] >= n > 0
    ensures k > 0
  {
  }

  lemma SameStart(h: Headers, list: seq<nat>, i: nat, j: nat)
    requires Ascends(h, list) && i < |list| && j < |list|
    ensures list[i] == list[j] ==> i == j
  {
    if i < j { assert list[i] + h.size[list[i]] < list[j]; }
    if j < i { assert list[j] + h.size[list[j]] < list[i]; }
  }

  lemma Found(h: Headers, list: seq<nat>, k: nat, n: nat)
    requires k < |list| && list[k] in h.size && h.size[list[k]] >= n
    ensures HasBlock(h, list, n) && BigAt(h, list, k, n)
  {
    assert BigAt(h, list, k, n);
  }

  lemma PassedMore(h: Headers, list: seq<nat>, start: nat, i: nat, j: nat, n: nat)
    requires start < |list| && i < |list| && j == (if i + 1 < |list| then i + 1 else 0) && !BigAt(h, list, j, n)
    requires forall k: nat :: Passed(start, i, k) ==> !BigAt(h, list, k, n)
    ensures forall k: nat :: Passed(start, j, k) && j != start ==> !BigAt(h, list, k, n)
  {
    forall k: nat | Passed(start, j, k) && j != start ensures !BigAt(h, list, k, n) {
      if k < |list| && k != j { assert Passed(start, i, k); }
    }
  }

  // Once around, and nothing was large enough.
  lemma NoBlock(h: Headers, list: seq<nat>, start: nat, i: nat, n: nat)
    requires start < |list| && i < |list| && start == (if i + 1 < |list| then i + 1 else 0) && !BigAt(h, list, start, n)
    requires forall k: nat :: Passed(start, i, k) ==> !BigAt(h, list, k, n)
    ensures !HasBlock(h, list, n)
  {
    forall k: nat ensures !BigAt(h, list, k, n) {
      if k < |list| && k != start { assert Passed(start, i, k); }
    }
  }

  lemma SameBlocks(h: Headers, list: seq<nat>, g: Headers, c: seq<nat>, n: nat)
    requires n > 0
    requires (h == g && list == c) || (list == [] && c == [BASE] && BASE in g.size && g.size[BASE] == 0)
    ensures HasBlock(h, list, n) <==> HasBlock(g, c, n)
  {
    if HasBlock(h, list, n) { var k: nat :| BigAt(h, list, k, n); assert BigAt(g, c, k, n); }
    if HasBlock(g, c, n) { var k: nat :| BigAt(g, c, k, n); assert BigAt(h, list, k, n); }
  }

  // p, clear of everything, is handed out.
  lemma HandOut(g: Headers, c: seq<nat>, live: map<nat, nat>, top: nat, p: nat, n: nat)
    requires Handed(g, c, live, top) && p !in live
    requires p in g.size && g.size[p] == n > 0 && BASE < p && p + n <= top && Clear(g, c, p, n)
    requires forall a :: a in live ==> (a < p ==> a + live[a] <= p) && (a > p ==> p + n <= a)
    ensures Handed(g, c, live[p := n], top)
  {
    hide Clear;
  }

  // Free units that are handed out stay on the books.
  lemma CoverOut(h: Headers, list: seq<nat>, g: Headers, c: seq<nat>, live: map<nat, nat>, got: set<nat>, p: nat,
                 n: nat)
    requires Covered(h, list, live, got) && p !in live
    requires forall u: nat :: FreeRing.Free(g, c, u) <==> FreeRing.Free(h, list, u) && !(p <= u < p + n)
    requires forall u: nat :: p <= u < p + n ==> FreeRing.Free(h, list, u)
    ensures Covered(g, c, live[p := n], got)
  {
    hide FreeRing.Free, InLive;
    forall u: nat ensures InLive(live[p := n], u) <==> InLive(live, u) || p <= u < p + n { LiveWith(live, p, n, u); }
  }

  lemma WholeBooks(h: Headers, list: seq<nat>, live: map<nat, nat>, got: set<nat>, top: nat, k: nat)
    requires Ring(h, list) && Books(h, list, live, got, top) && 0 < k < |list| && list[k] in h.ptr && list[k] in h.size
    ensures list[k] !in live && Books(Unlinked(h, list, k), Minus(list, k), live[list[k] := h.size[list[k]]], got, top)
  {
    hide FreeRing.Free, InLive, Ring, Handed, Capped, Covered, Unlinked, Minus;
    WholeHanded(h, list, live, got, top, k);
    UnlinkKeeps(h, list, k);
    forall u: nat | list[k] <= u < list[k] + h.size[list[k]]
      ensures FreeRing.Free(h, list, u)
    {
      BlockFree(h, list, k, u);
    }
    CoverOut(h, list, Unlinked(h, list, k), Minus(list, k), live, got, list[k], h.size[list[k]]);
  }

  lemma BlockFree(h: Headers, list: seq<nat>, k: nat, u: nat)
    requires InBlock(h, list, k, u)
    ensures FreeRing.Free(h, list, u)
  {
  }

  lemma WholeHanded(h: Headers, list: seq<nat>, live: map<nat, nat>, got: set<nat>, top: nat, k: nat)
    requires Ring(h, list) && Books(h, list, live, got, top) && 0 < k < |list| && list[k] in h.ptr && list[k] in h.size
    ensures var g, c := Unlinked(h, list, k), Minus(list, k);
            list[k] !in live && Handed(g, c, live[list[k] := h.size[list[k]]], top) && Capped(g, c, top)
  {
    hide Covered, Linked;
    var g, c, p, n := Unlinked(h, list, k), Minus(list, k), list[k], h.size[list[k]];
    if p in live { NotHead(h, list, live, got, top, p, k); }
    forall i | 0 <= i < |c| ensures c[i] == list[if i < k then i else i + 1] { MinusAt(list, k, i); }
    hide Minus;
    HandOut(g, c, live, top, p, n);
  }

  lemma SplitBooks(h: Headers, list: seq<nat>, live: map<nat, nat>, got: set<nat>, top: nat, k: nat, n: nat)
    requires Ring(h, list) && Books(h, list, live, got, top) && 0 < k < |list|
    requires list[k] in h.size && 0 < n < h.size[list[k]]
    ensures var q := list[k] + h.size[list[k]] - n;
            q !in live && Books(Split(h, list[k], n), list, live[q := n], got, top)
  {
    hide FreeRing.Free, InLive, Ring, Handed, Capped, Covered, Split;
    var q := list[k] + h.size[list[k]] - n;
    SplitHanded(h, list, live, got, top, k, n);
    SplitKeeps(h, list, k, n);
    forall u: nat | q <= u < q + n ensures FreeRing.Free(h, list, u) { BlockFree(h, list, k, u); }
    CoverOut(h, list, Split(h, list[k], n), list, live, got, q, n);
  }

  lemma SplitHanded(h: Headers, list: seq<nat>, live: map<nat, nat>, got: set<nat>, top: nat, k: nat, n: nat)
    requires Ring(h, list) && Books(h, list, live, got, top) && 0 < k < |list|
    requires list[k] in h.size && 0 < n < h.size[list[k]]
    ensures var g, q := Split(h, list[k], n), list[k] + h.size[list[k]] - n;
            q !in live && Handed(g, list, live[q := n], top) && Capped(g, list, top)
  {
    hide Covered, Linked;
    SplitSizes(h, list, k, n);
    SplitApart(h, list, k, n);
    forall a | a in live ensures a != list[k] { NotHead(h, list, live, got, top, a, k); }
    HandOut(Split(h, list[k], n), list, live, top, list[k] + h.size[list[k]] - n, n);
  }

  // Some block of the list has at least n headers.
  ghost predicate HasBlock(h: Headers, list: seq<nat>, n: nat) {
    exists k: nat :: BigAt(h, list, k, n)
  }

  // The last n headers of a block at p.
  function EndOf(p: nat, size: nat, n: nat): nat
    requires size >= n
  {
    p + (size - n)
  }

  /** The block is the first of at least n headers from start's successor on, around the ring; its end, or
      all of it, is what is handed out, and the next search begins before it. */
  ghost predicate FirstAt(h: Headers, list: seq<nat>, start: nat, k: nat, n: nat, freep: nat, r: nat) {
    && BigAt(h, list, k, n) && k > 0 && freep == list[k - 1]
    && (forall i: nat :: Passed(start, k - 1, i) ==> !BigAt(h, list, i, n))
    && r == EndOf(list[k], h.size[list[k]], n) + 1
  }

  ghost predicate FirstFrom(h: Headers, list: seq<nat>, from: nat, n: nat, freep: nat, r: nat) {
    exists start: nat, k: nat ::
      start < |list| && list[start] == from && FirstAt(h, list, start, k, n, freep, r)
  }

  /** bp has gone back to the list after its jth block, joined with what it touches, and the next search
      begins there. */
  ghost predicate PutAt(h: Headers, list: seq<nat>, j: nat, bp: nat, g: Headers, after: seq<nat>, freep: nat) {
    && Fits(list, j, bp) && j < |list| && list[j] in h.ptr && list[j] in h.size && bp in h.size
    && h.ptr[list[j]] in h.size && h.ptr[list[j]] in h.ptr
    && g == Inserted(h, list[j], bp) && after == InsertedList(h, list, j, bp) && freep == list[j]
  }

  lemma PutIs(h: Headers, list: seq<nat>, j: nat, bp: nat, p: nat)
    requires Insertable(h, list, j, bp) && j < |list| && p == list[j]
    ensures bp in h.size && p in h.ptr && p in h.size && h.ptr[p] in h.size && h.ptr[p] in h.ptr
    ensures FreedAt(h, list, bp, Inserted(h, p, bp), InsertedList(h, list, j, bp), p)
  {
    Neighbours(h, list, j, bp);
    hide Inserted, InsertedList, Ring, Clear;
    assert PutAt(h, list, j, bp, Inserted(h, p, bp), InsertedList(h, list, j, bp), p);
  }

  ghost predicate FreedAt(h: Headers, list: seq<nat>, bp: int, g: Headers, after: seq<nat>, freep: nat) {
    bp >= 0 && exists j: nat :: PutAt(h, list, j, bp, g, after, freep)
  }

  predicate BigAt(h: Headers, list: seq<nat>, k: nat, n: nat) {
    k < |list| && list[k] in h.size && h.size[list[k]] >= n
  }

  lemma Larger(h: Headers, list: seq<nat>, n: nat, nu: nat)
    requires HasBlock(h, list, n) && nu <= n
    ensures HasBlock(h, list, nu)
  {
    var k: nat :| BigAt(h, list, k, n);
    assert BigAt(h, list, k, nu);
  }

  lemma KnownLive(h: Headers, list: seq<nat>, live: map<nat, nat>, got: set<nat>, top: nat, a: nat)
    requires Books(h, list, live, got, top) && a in live
    ensures a in h.size && h.size[a] == live[a] > 0 && Clear(h, list, a, live[a]) && a + live[a] <= top
  {
    hide Covered, Clear;
  }

  // Inserted, in the order the code writes it.
  lemma InsertedIs(h: Headers, p: nat, bp: nat)
    requires p in h.ptr && p in h.size && bp in h.size && h.ptr[p] in h.size && h.ptr[p] in h.ptr
    ensures var next := h.ptr[p];
            var size1 := if bp + h.size[bp] == next then h.size[bp := h.size[bp] + h.size[next]] else h.size;
            var ptr1 := if bp + h.size[bp] == next then h.ptr[bp := h.ptr[next]] else h.ptr[bp := next];
            Inserted(h, p, bp) ==
              if p + size1[p] == bp then Headers(ptr1[p := ptr1[bp]], size1[p := size1[p] + size1[bp]])
              else Headers(ptr1[p := bp], size1)
  {
  }

  // After a free there is a block at least as large as what was freed.
  lemma Joins(h: Headers, list: seq<nat>, j: nat, bp: nat)
    requires Insertable(h, list, j, bp)
    requires list[j] in h.ptr && list[j] in h.size && h.ptr[list[j]] in h.size && h.ptr[list[j]] in h.ptr
    ensures HasBlock(Inserted(h, list[j], bp), InsertedList(h, list, j, bp), h.size[bp])
  {
    var g, c := Inserted(h, list[j], bp), InsertedList(h, list, j, bp);
    Neighbours(h, list, j, bp);
    InsertedSizes(h, list, j, bp);
    InsertedAt(h, list, j, bp, j);
    hide Inserted, InsertedList, Ring, Clear;
    if list[j] + h.size[list[j]] == bp {
      assert BigAt(g, c, j, h.size[bp]);
    } else {
      InsertedAt(h, list, j, bp, j + 1);
      assert BigAt(g, c, j + 1, h.size[bp]);
    }
  }

  lemma FreeBooks(h: Headers, list: seq<nat>, live: map<nat, nat>, got: set<nat>, top: nat, j: nat, bp: nat)
    requires Books(h, list, live, got, top) && Insertable(h, list, j, bp) && bp in live
    requires list[j] in h.ptr && list[j] in h.size && h.ptr[list[j]] in h.size && h.ptr[list[j]] in h.ptr
    ensures Books(Inserted(h, list[j], bp), InsertedList(h, list, j, bp), live - {bp}, got, top)
  {
    var g, c, rest := Inserted(h, list[j], bp), InsertedList(h, list, j, bp), live - {bp};
    FreedHanded(h, list, live, got, top, j, bp);
    FreedCapped(h, list, live, got, top, j, bp);
    InsertKeeps(h, list, j, bp);
    KnownLive(h, list, live, got, top, bp);
    hide Inserted, InsertedList, Insertable, Ring, FreeRing.Free, InLive, Handed, Capped;
    forall u: nat ensures InLive(live, u) <==> InLive(rest, u) || bp <= u < bp + live[bp] { LiveWithout(live, bp, u); }
  }

  lemma LiveWithout(live: map<nat, nat>, bp: nat, u: nat)
    requires bp in live
    ensures InLive(live, u) <==> InLive(live - {bp}, u) || bp <= u < bp + live[bp]
  {
    if InLive(live, u) {
      var a :| a in live && a <= u < a + live[a];
      if a != bp { assert a in live - {bp}; }
    }
    if InLive(live - {bp}, u) {
      var a :| a in live - {bp} && a <= u < a + (live - {bp})[a];
      assert a in live;
    }
  }

  lemma NotHead(h: Headers, list: seq<nat>, live: map<nat, nat>, got: set<nat>, top: nat, a: nat, j: nat)
    requires Books(h, list, live, got, top) && Ring(h, list) && a in live && j < |list|
    ensures a != list[j]
  {
    hide Covered, Linked;
  }

  lemma OneClear(h: Headers, list: seq<nat>, live: map<nat, nat>, got: set<nat>, top: nat, a: nat, j: nat, bp: nat)
    requires Books(h, list, live, got, top) && Insertable(h, list, j, bp) && bp in live && a in live && a != bp
    ensures live[a] > 0 && (a + live[a] <= bp || bp + h.size[bp] <= a)
    ensures forall k :: 0 < k < |list| && list[k] in h.size ==> a + live[a] <= list[k] || list[k] + h.size[list[k]] <= a
    ensures a > BASE && list[0] == BASE
  {
    hide Covered, Linked;
  }

  /** What sbrk gives goes on the books as a block handed out, about to be freed. */
  lemma MoreBooks(h: Headers, list: seq<nat>, live: map<nat, nat>, got: set<nat>, top: nat, hp: nat, n: nat)
    requires Ring(h, list) && Books(h, list, live, got, top) && hp >= top && n > 0
    ensures var g := h.(size := h.size[hp := n]);
            Ring(g, list) && Books(g, list, live[hp := n], got + Span(hp, n), hp + n) && hp !in live
  {
    hide Ring, Handed, Capped, FreeRing.Free, InLive;
    var g, more := h.(size := h.size[hp := n]), live[hp := n];
    NewHeader(h, list, live, got, top, hp, n);
    forall u: nat ensures u in got + Span(hp, n) <==> FreeRing.Free(g, list, u) || InLive(more, u) {
      SameFree(h, g, list, u);
      LiveWith(live, hp, n, u);
    }
  }

  // A header at the break is no block of the list.
  lemma AtBreak(h: Headers, list: seq<nat>, live: map<nat, nat>, got: set<nat>, top: nat, hp: nat)
    requires Ring(h, list) && Books(h, list, live, got, top) && hp >= top
    ensures hp !in live && BASE < hp
    ensures forall k: nat :: k < |list| ==> list[k] in h.size && list[k] + h.size[list[k]] <= hp && list[k] != hp
  {
    hide Covered, Linked, Clear;
    BlocksSized(h, list);
  }

  lemma RingWith(h: Headers, list: seq<nat>, hp: nat, n: nat)
    requires Ring(h, list) && hp !in list
    ensures Ring(h.(size := h.size[hp := n]), list)
  {
    var g := h.(size := h.size[hp := n]);
    assert Ascends(g, list);
    hide Ascends;
    forall k: nat | k < |list| ensures list[k] in g.ptr && g.ptr[list[k]] == After(list, k) { PtrAt(h, list, k); }
  }

  lemma HandedWith(h: Headers, list: seq<nat>, live: map<nat, nat>, top: nat, hp: nat, n: nat)
    requires Handed(h, list, live, top) && hp >= top && hp !in live && hp !in list
    ensures Handed(h.(size := h.size[hp := n]), list, live, hp + n)
  {
  }

  lemma NewHeader(h: Headers, list: seq<nat>, live: map<nat, nat>, got: set<nat>, top: nat, hp: nat, n: nat)
    requires Ring(h, list) && Books(h, list, live, got, top) && hp >= top && n > 0
    ensures var g := h.(size := h.size[hp := n]);
            && hp !in live && Ring(g, list) && Handed(g, list, live[hp := n], hp + n) && Capped(g, list, hp + n)
            && (forall k :: 0 <= k < |list| ==> list[k] in h.size && g.size[list[k]] == h.size[list[k]])
  {
    AtBreak(h, list, live, got, top, hp);
    RingWith(h, list, hp, n);
    HandedWith(h, list, live, top, hp, n);
    forall a | a in live ensures a + live[a] <= hp { KnownLive(h, list, live, got, top, a); }
    hide Books, Handed, Ring;
    HandOut(h.(size := h.size[hp := n]), list, live, hp + n, hp, n);
  }

  lemma SameFree(h: Headers, g: Headers, list: seq<nat>, u: nat)
    requires forall k :: 0 <= k < |list| ==>
      list[k] in h.size && list[k] in g.size && g.size[list[k]] == h.size[list[k]]
    ensures FreeRing.Free(g, list, u) <==> FreeRing.Free(h, list, u)
  {
    if FreeRing.Free(g, list, u) { var k: nat :| k < |list| && InBlock(g, list, k, u); assert InBlock(h, list, k, u); }
    if FreeRing.Free(h, list, u) { var k: nat :| k < |list| && InBlock(h, list, k, u); assert InBlock(g, list, k, u); }
  }

  lemma LiveWith(live: map<nat, nat>, hp: nat, n: nat, u: nat)
    requires hp !in live
    ensures InLive(live[hp := n], u) <==> InLive(live, u) || hp <= u < hp + n
  {
    var more := live[hp := n];
    if InLive(more, u) {
      var a :| a in more && a <= u < a + more[a];
      if a != hp { assert a in live; }
    }
    if InLive(live, u) {
      var a :| a in live && a <= u < a + live[a];
      assert a in more;
    }
    if hp <= u < hp + n { assert hp in more; }
  }

  // A live block is clear of the new list, and its header says what it said.
  lemma FreedOne(h: Headers, list: seq<nat>, live: map<nat, nat>, got: set<nat>, top: nat, j: nat, bp: nat, a: nat)
    requires Books(h, list, live, got, top) && Insertable(h, list, j, bp) && bp in live && a in live && a != bp
    requires list[j] in h.ptr && list[j] in h.size && h.ptr[list[j]] in h.size && h.ptr[list[j]] in h.ptr
    ensures var g, c := Inserted(h, list[j], bp), InsertedList(h, list, j, bp);
            a in g.size && g.size[a] == live[a] && Clear(g, c, a, live[a])
  {
    var g, c := Inserted(h, list[j], bp), InsertedList(h, list, j, bp);
    Neighbours(h, list, j, bp);
    InsertedSizes(h, list, j, bp);
    NotHead(h, list, live, got, top, a, j);
    KnownLive(h, list, live, got, top, a);
    OneClear(h, list, live, got, top, a, j, bp);
    hide Books, Insertable, Inserted, InsertedList;
    forall k | 0 < k < |c| && c[k] in g.size ensures a + live[a] <= c[k] || c[k] + g.size[c[k]] <= a {
      InsertedAt(h, list, j, bp, k);
    }
  }

  lemma FreedHanded(h: Headers, list: seq<nat>, live: map<nat, nat>, got: set<nat>, top: nat, j: nat, bp: nat)
    requires Books(h, list, live, got, top) && Insertable(h, list, j, bp) && bp in live
    requires list[j] in h.ptr && list[j] in h.size && h.ptr[list[j]] in h.size && h.ptr[list[j]] in h.ptr
    ensures Handed(Inserted(h, list[j], bp), InsertedList(h, list, j, bp), live - {bp}, top)
  {
    assert j < |list| && bp in h.size;
    hide Inserted, InsertedList, Insertable, Clear, Covered, Capped;
    var g, c := Inserted(h, list[j], bp), InsertedList(h, list, j, bp);
    forall a | a in live && a != bp ensures a in g.size && g.size[a] == live[a] && Clear(g, c, a, live[a]) {
      FreedOne(h, list, live, got, top, j, bp, a);
    }
  }

  lemma FreedCapped(h: Headers, list: seq<nat>, live: map<nat, nat>, got: set<nat>, top: nat, j: nat, bp: nat)
    requires Books(h, list, live, got, top) && Insertable(h, list, j, bp) && bp in live
    requires list[j] in h.ptr && list[j] in h.size && h.ptr[list[j]] in h.size && h.ptr[list[j]] in h.ptr
    ensures Capped(Inserted(h, list[j], bp), InsertedList(h, list, j, bp), top)
  {
    var g, c := Inserted(h, list[j], bp), InsertedList(h, list, j, bp);
    Neighbours(h, list, j, bp);
    InsertedSizes(h, list, j, bp);
    BlocksSized(h, list);
    KnownLive(h, list, live, got, top, bp);
    hide Handed, Covered, Insertable, Inserted, InsertedList;
    forall k | 0 <= k < |c| && c[k] in g.size ensures c[k] + g.size[c[k]] <= top { InsertedAt(h, list, j, bp, k); }
  }

  lemma AboveBase(h: Headers, list: seq<nat>, k: nat)
    requires Ascends(h, list) && k < |list|
    ensures list[k] >= BASE
  {
    if k > 0 { assert list[0] + h.size[list[0]] < list[k]; }
  }

  // The steps from j around to place.
  function Left(j: nat, place: nat, n: nat): int {
    if j <= place then place - j else n - j + place
  }

  lemma {:induction false} PlaceFrom(h: Headers, list: seq<nat>, bp: nat, k: nat) returns (j: nat)
    requires Ascends(h, list) && k < |list| && list[k] < bp
    requires forall i :: 0 <= i < |list| ==> list[i] != bp
    ensures Fits(list, j, bp)
    decreases |list| - k
  {
    if k + 1 < |list| && list[k + 1] < bp { j := PlaceFrom(h, list, bp, k + 1); } else { j := k; }
  }

  // There is a place for bp; that it is the only one is Stops.
  lemma PlaceOf(h: Headers, list: seq<nat>, bp: nat, n: nat) returns (j: nat)
    requires Ascends(h, list) && Clear(h, list, bp, n) && n > 0
    ensures Fits(list, j, bp)
  {
    forall i | 0 <= i < |list| ensures list[i] != bp { }
    j := PlaceFrom(h, list, bp, 0);
  }

  /** The loop's two tests together stop at the place and nowhere else. */
  lemma Stops(h: Headers, list: seq<nat>, k: nat, bp: nat, n: nat, place: nat)
    requires Ascends(h, list) && Clear(h, list, bp, n) && n > 0 && Fits(list, place, bp) && k < |list|
    ensures var p, q := list[k], After(list, k);
            (bp > p && bp < q) || (p >= q && (bp > p || bp < q)) <==> k == place
  {
    if k < place {
      assert list[k] + h.size[list[k]] < list[place];
      if k + 1 < place { assert list[k + 1] + h.size[list[k + 1]] < list[place]; }
    }
    if k > place {
      assert list[place] + h.size[list[place]] < list[k];
      if k > place + 1 { assert list[place + 1] + h.size[list[place + 1]] < list[k]; }
    }
    if k + 1 < |list| { assert list[k] + h.size[list[k]] < list[k + 1]; }
    if k > 0 { assert list[0] + h.size[list[0]] < list[k]; }
  }
}
