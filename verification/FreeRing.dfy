/** umalloc.c's circular free list, as the list of its blocks from base on in address order. */
module FreeRing {

  const BASE: nat := 1             // the static base block, below the heap; addresses count Headers, 0 is null

  // The s.ptr and s.size fields of every header.
  datatype Headers = Headers(ptr: map<nat, nat>, size: map<nat, nat>)

  // The block after list[k], around the circle.
  function After(list: seq<nat>, k: nat): nat
    requires k < |list|
  {
    if k + 1 < |list| then list[k + 1] else list[0]
  }

  /** base first and empty, then blocks in ascending order with a gap after each: no two touch. */
  ghost predicate Ascends(h: Headers, list: seq<nat>) {
    && |list| > 0 && list[0] == BASE
    && (forall k :: 0 <= k < |list| ==>
        list[k] in h.size && (if k == 0 then h.size[list[k]] == 0 else h.size[list[k]] > 0))
    && (forall k, l :: 0 <= k < l < |list| ==> list[k] + h.size[list[k]] < list[l])
  }

  ghost predicate Linked(h: Headers, list: seq<nat>) {
    forall k: nat {:trigger h.ptr[list[k]]} :: k < |list| ==> list[k] in h.ptr && h.ptr[list[k]] == After(list, k)
  }

  ghost predicate Ring(h: Headers, list: seq<nat>) {
    Ascends(h, list) && Linked(h, list)
  }

  /** u is in one of the list's blocks. */
  ghost predicate Free(h: Headers, list: seq<nat>, u: nat) {
    exists k: nat :: k < |list| && InBlock(h, list, k, u)
  }

  predicate InBlock(h: Headers, list: seq<nat>, k: nat, u: nat) {
    k < |list| && list[k] in h.size && list[k] <= u < list[k] + h.size[list[k]]
  }

  lemma PtrAt(h: Headers, list: seq<nat>, k: nat)
    requires Ring(h, list) && k < |list|
    ensures list[k] in h.ptr && list[k] in h.size && h.ptr[list[k]] == After(list, k)
  {
  }

  /** Whether a block of n headers at bp is clear of all of the list's. */
  ghost predicate Clear(h: Headers, list: seq<nat>, bp: nat, n: nat) {
    bp > BASE && forall k :: 0 < k < |list| && list[k] in h.size ==>
        bp + n <= list[k] || list[k] + h.size[list[k]] <= bp
  }

  // The place for bp: after list[j].
  ghost predicate Fits(list: seq<nat>, j: nat, bp: nat) {
    j < |list| && list[j] < bp && (j + 1 < |list| ==> bp < list[j + 1])
  }

  // ---- inserting ----

  // free's writes for a block bp whose place is after p.
  function Inserted(h: Headers, p: nat, bp: nat): Headers
    requires p in h.ptr && p in h.size && bp in h.size && h.ptr[p] in h.size && h.ptr[p] in h.ptr
  {
    var next := h.ptr[p];
    var g := if bp + h.size[bp] == next
             then Headers(h.ptr[bp := h.ptr[next]], h.size[bp := h.size[bp] + h.size[next]])
             else h.(ptr := h.ptr[bp := next]);
    if p + g.size[p] == bp
    then Headers(g.ptr[p := g.ptr[bp]], g.size[p := g.size[p] + g.size[bp]])
    else g.(ptr := g.ptr[p := bp])
  }

  function InsertedList(h: Headers, list: seq<nat>, j: nat, bp: nat): seq<nat>
    requires j < |list| && list[j] in h.size && bp in h.size
  {
    list[..j + 1] +
    (if list[j] + h.size[list[j]] == bp then [] else [bp]) +
    (if j + 1 < |list| && bp + h.size[bp] == list[j + 1] then list[j + 2..] else list[j + 1..])
  }

  ghost predicate Insertable(h: Headers, list: seq<nat>, j: nat, bp: nat) {
    && Ring(h, list) && Fits(list, j, bp) && bp in h.size && h.size[bp] > 0 && Clear(h, list, bp, h.size[bp])
  }

  // Where bp's neighbours end and begin.
  lemma Neighbours(h: Headers, list: seq<nat>, j: nat, bp: nat)
    requires Insertable(h, list, j, bp)
    ensures list[j] in h.ptr && list[j] in h.size && After(list, j) in h.ptr && After(list, j) in h.size
    ensures h.ptr[list[j]] == After(list, j) && list[j] + h.size[list[j]] <= bp && bp !in list
    ensures j + 1 < |list| ==> After(list, j) == list[j + 1] && bp + h.size[bp] <= list[j + 1]
    ensures j + 1 == |list| ==> After(list, j) == BASE
    ensures forall k :: 0 <= k < j ==> list[k] + h.size[list[k]] < list[j]
    ensures forall k :: j + 1 < k < |list| ==> list[j + 1] + h.size[list[j + 1]] < list[k]
  {
    PtrAt(h, list, j);
    PtrAt(h, list, if j + 1 < |list| then j + 1 else 0);
    forall k | 0 <= k < |list| ensures list[k] != bp {
      if k < j { assert list[k] + h.size[list[k]] < list[j]; }
      if k > j + 1 { assert list[j + 1] + h.size[list[j + 1]] < list[k]; }
    }
  }

  // The list after, element by element: mergeLo and mergeHi say which neighbours bp joins.
  lemma InsertedAt(h: Headers, list: seq<nat>, j: nat, bp: nat, k: nat)
    requires Insertable(h, list, j, bp) && list[j] in h.size
    requires k < |InsertedList(h, list, j, bp)|
    ensures var c := InsertedList(h, list, j, bp);
            var lo := if list[j] + h.size[list[j]] == bp then 0 else 1;
            var hi := if j + 1 < |list| && bp + h.size[bp] == list[j + 1] then 1 else 0;
            && |c| == |list| + lo - hi
            && (k <= j ==> c[k] == list[k]) && (lo == 1 && k == j + 1 ==> c[k] == bp)
            && (k > j + lo ==> k - lo + hi < |list| && c[k] == list[k - lo + hi])
  {
    hide Ring, Clear;
  }

  lemma InsertedSizes(h: Headers, list: seq<nat>, j: nat, bp: nat)
    requires Insertable(h, list, j, bp)
    requires list[j] in h.ptr && list[j] in h.size && h.ptr[list[j]] in h.size && h.ptr[list[j]] in h.ptr
    ensures var g, p, n := Inserted(h, list[j], bp), list[j], h.size[bp];
            var hi := if j + 1 < |list| && bp + n == list[j + 1] then h.size[list[j + 1]] else 0;
            && g.size.Keys == h.size.Keys
            && (forall a :: a in h.size && a != p && a != bp ==> g.size[a] == h.size[a])
            && (if p + h.size[p] == bp then g.size[p] == h.size[p] + n + hi
                else g.size[p] == h.size[p] && g.size[bp] == n + hi)
  {
    Neighbours(h, list, j, bp);
    hide Ring, Clear;
  }

  lemma InsertAscends(h: Headers, list: seq<nat>, j: nat, bp: nat)
    requires Insertable(h, list, j, bp)
    requires list[j] in h.ptr && list[j] in h.size && h.ptr[list[j]] in h.size && h.ptr[list[j]] in h.ptr
    ensures Ascends(Inserted(h, list[j], bp), InsertedList(h, list, j, bp))
  {
    var g, c := Inserted(h, list[j], bp), InsertedList(h, list, j, bp);
    Neighbours(h, list, j, bp);
    InsertedSizes(h, list, j, bp);
    hide Inserted, InsertedList, Linked, Clear;
    InsertedAt(h, list, j, bp, 0);
    forall k | 0 <= k < |c| ensures c[k] in g.size && (if k == 0 then g.size[c[k]] == 0 else g.size[c[k]] > 0) {
      InsertedAt(h, list, j, bp, k);
    }
    forall k, l | 0 <= k < l < |c| ensures c[k] + g.size[c[k]] < c[l] { InsertedOrder(h, list, j, bp, k, l); }
  }

  lemma InsertedOrder(h: Headers, list: seq<nat>, j: nat, bp: nat, k: nat, l: nat)
    requires Insertable(h, list, j, bp)
    requires list[j] in h.ptr && list[j] in h.size && h.ptr[list[j]] in h.size && h.ptr[list[j]] in h.ptr
    requires k < l < |InsertedList(h, list, j, bp)|
    ensures var g, c := Inserted(h, list[j], bp), InsertedList(h, list, j, bp);
            c[k] in g.size && c[k] + g.size[c[k]] < c[l]
  {
    Neighbours(h, list, j, bp);
    InsertedSizes(h, list, j, bp);
    InsertedAt(h, list, j, bp, k);
    InsertedAt(h, list, j, bp, l);
    hide Inserted, InsertedList, Linked, Clear;
  }

  lemma InsertedPtrs(h: Headers, list: seq<nat>, j: nat, bp: nat)
    requires Insertable(h, list, j, bp)
    requires list[j] in h.ptr && list[j] in h.size && h.ptr[list[j]] in h.size && h.ptr[list[j]] in h.ptr
    ensures var g, p, next := Inserted(h, list[j], bp), list[j], After(list, j);
            var joined := j + 1 < |list| && bp + h.size[bp] == list[j + 1];
            var then_ := if joined then After(list, j + 1) else next;
            && (forall a :: a in h.ptr ==> a in g.ptr) && p in g.ptr && bp in g.ptr
            && (forall a :: a in h.ptr && a != p && a != bp ==> g.ptr[a] == h.ptr[a])
            && (if p + h.size[p] == bp then g.ptr[p] == then_ else g.ptr[p] == bp && g.ptr[bp] == then_)
  {
    Neighbours(h, list, j, bp);
    if j + 1 < |list| { PtrAt(h, list, j + 1); }
    hide Ring, Clear;
  }

  lemma InsertLinked(h: Headers, list: seq<nat>, j: nat, bp: nat)
    requires Insertable(h, list, j, bp)
    requires list[j] in h.ptr && list[j] in h.size && h.ptr[list[j]] in h.size && h.ptr[list[j]] in h.ptr
    ensures Linked(Inserted(h, list[j], bp), InsertedList(h, list, j, bp))
  {
    hide Inserted, InsertedList, Ring, Clear;
    var g, c := Inserted(h, list[j], bp), InsertedList(h, list, j, bp);
    forall k: nat | k < |c| ensures c[k] in g.ptr && g.ptr[c[k]] == After(c, k) { InsertedPtr(h, list, j, bp, k); }
  }

  lemma InsertedPtr(h: Headers, list: seq<nat>, j: nat, bp: nat, k: nat)
    requires Insertable(h, list, j, bp) && k < |InsertedList(h, list, j, bp)|
    requires list[j] in h.ptr && list[j] in h.size && h.ptr[list[j]] in h.size && h.ptr[list[j]] in h.ptr
    ensures var g, c := Inserted(h, list[j], bp), InsertedList(h, list, j, bp);
            c[k] in g.ptr && g.ptr[c[k]] == After(c, k)
  {
    var g, c := Inserted(h, list[j], bp), InsertedList(h, list, j, bp);
    Neighbours(h, list, j, bp);
    InsertedPtrs(h, list, j, bp);
    hide Inserted, InsertedList, Clear, Ring, Fits;
    InsertedAt(h, list, j, bp, k);
    InsertedAt(h, list, j, bp, 0);
    if k + 1 < |c| { InsertedAt(h, list, j, bp, k + 1); }
    var lo := if list[j] + h.size[list[j]] == bp then 0 else 1;
    var hi := if j + 1 < |list| && bp + h.size[bp] == list[j + 1] then 1 else 0;
    if k < j { OwnPtr(h, list, j, bp, k); } else if k > j + lo { OwnPtr(h, list, j, bp, k - lo + hi); }
  }

  // A block away from the place keeps its pointer.
  lemma OwnPtr(h: Headers, list: seq<nat>, j: nat, bp: nat, k: nat)
    requires Insertable(h, list, j, bp) && k < |list| && k != j
    ensures list[k] in h.ptr && h.ptr[list[k]] == After(list, k) && list[k] != list[j] && list[k] != bp
  {
    Neighbours(h, list, j, bp);
    PtrAt(h, list, k);
  }

  // Nothing is freed but bp's units.
  lemma OnlyInserted(h: Headers, list: seq<nat>, j: nat, bp: nat, k: nat, u: nat)
    requires Insertable(h, list, j, bp)
    requires list[j] in h.ptr && list[j] in h.size && h.ptr[list[j]] in h.size && h.ptr[list[j]] in h.ptr
    requires InBlock(Inserted(h, list[j], bp), InsertedList(h, list, j, bp), k, u)
    ensures Free(h, list, u) || bp <= u < bp + h.size[bp]
  {
    var g, c := Inserted(h, list[j], bp), InsertedList(h, list, j, bp);
    Neighbours(h, list, j, bp);
    InsertedSizes(h, list, j, bp);
    InsertedAt(h, list, j, bp, j);
    var lo := if list[j] + h.size[list[j]] == bp then 0 else 1;
    var hi := if j + 1 < |list| && bp + h.size[bp] == list[j + 1] then 1 else 0;
    hide Inserted, InsertedList, Clear, Ring, Fits;
    InsertedAt(h, list, j, bp, k);
    BlocksSized(h, list);
    if k < j { assert InBlock(h, list, k, u); }
    else if k > j + lo { assert InBlock(h, list, k - lo + hi, u); }
    else if !(bp <= u < bp + h.size[bp]) {
      assert InBlock(h, list, j, u) || (hi == 1 && InBlock(h, list, j + 1, u));
    }
  }

  lemma BlocksSized(h: Headers, list: seq<nat>)
    requires Ring(h, list)
    ensures forall k :: 0 <= k < |list| ==> list[k] in h.size
  {
  }

  // bp's units are free, in bp's own block or in that of a neighbour.
  lemma NewInserted(h: Headers, list: seq<nat>, j: nat, bp: nat, u: nat)
    requires Insertable(h, list, j, bp)
    requires list[j] in h.ptr && list[j] in h.size && h.ptr[list[j]] in h.size && h.ptr[list[j]] in h.ptr
    requires bp <= u < bp + h.size[bp] || InBlock(h, list, j, u)
             || (j + 1 < |list| && bp + h.size[bp] == list[j + 1] && InBlock(h, list, j + 1, u))
    ensures Free(Inserted(h, list[j], bp), InsertedList(h, list, j, bp), u)
  {
    var g, c := Inserted(h, list[j], bp), InsertedList(h, list, j, bp);
    Neighbours(h, list, j, bp);
    InsertedSizes(h, list, j, bp);
    InsertedAt(h, list, j, bp, j);
    hide Inserted, InsertedList, Insertable;
    if list[j] + h.size[list[j]] == bp || InBlock(h, list, j, u) {
      assert InBlock(g, c, j, u);
    } else {
      InsertedAt(h, list, j, bp, j + 1);
      assert InBlock(g, c, j + 1, u);
    }
  }

  // Blocks away from the place stay as they are.
  lemma OldInserted(h: Headers, list: seq<nat>, j: nat, bp: nat, k: nat, u: nat)
    requires Insertable(h, list, j, bp) && InBlock(h, list, k, u) && k != j
    requires list[j] in h.ptr && list[j] in h.size && h.ptr[list[j]] in h.size && h.ptr[list[j]] in h.ptr
    requires k == j + 1 ==> bp + h.size[bp] != list[j + 1]
    ensures Free(Inserted(h, list[j], bp), InsertedList(h, list, j, bp), u)
  {
    var g, c := Inserted(h, list[j], bp), InsertedList(h, list, j, bp);
    Apart(h, list, j, bp, k);
    InsertedSizes(h, list, j, bp);
    InsertedAt(h, list, j, bp, 0);
    hide Inserted, InsertedList, Insertable;
    var lo := if list[j] + h.size[list[j]] == bp then 0 else 1;
    var hi := if j + 1 < |list| && bp + h.size[bp] == list[j + 1] then 1 else 0;
    var m := if k < j then k else k + lo - hi;
    InsertedAt(h, list, j, bp, m);
    assert InBlock(g, c, m, u);
  }

  // bp's units and all that was free are free.
  lemma AllInserted(h: Headers, list: seq<nat>, j: nat, bp: nat, k: nat, u: nat)
    requires Insertable(h, list, j, bp)
    requires list[j] in h.ptr && list[j] in h.size && h.ptr[list[j]] in h.size && h.ptr[list[j]] in h.ptr
    requires (bp <= u < bp + h.size[bp] && k == j) || InBlock(h, list, k, u)
    ensures Free(Inserted(h, list[j], bp), InsertedList(h, list, j, bp), u)
  {
    assert j < |list| && bp in h.size;
    hide Inserted, InsertedList, Insertable, Free;
    if k == j || (k == j + 1 && bp + h.size[bp] == list[j + 1]) { NewInserted(h, list, j, bp, u); }
    else { OldInserted(h, list, j, bp, k, u); }
  }

  lemma Apart(h: Headers, list: seq<nat>, j: nat, bp: nat, k: nat)
    requires Insertable(h, list, j, bp) && k < |list|
    ensures list[k] != bp && (k != j ==> list[k] != list[j])
  {
    Neighbours(h, list, j, bp);
  }

  lemma InsertFree(h: Headers, list: seq<nat>, j: nat, bp: nat, u: nat)
    requires Insertable(h, list, j, bp)
    requires list[j] in h.ptr && list[j] in h.size && h.ptr[list[j]] in h.size && h.ptr[list[j]] in h.ptr
    ensures Free(Inserted(h, list[j], bp), InsertedList(h, list, j, bp), u) <==>
      Free(h, list, u) || bp <= u < bp + h.size[bp]
  {
    var g, c := Inserted(h, list[j], bp), InsertedList(h, list, j, bp);
    hide Inserted, InsertedList, Insertable, InBlock;
    if Free(g, c, u) {
      var k: nat :| k < |c| && InBlock(g, c, k, u);
      OnlyInserted(h, list, j, bp, k, u);
    }
    if bp <= u < bp + h.size[bp] { AllInserted(h, list, j, bp, j, u); }
    if Free(h, list, u) {
      var k: nat :| k < |list| && InBlock(h, list, k, u);
      AllInserted(h, list, j, bp, k, u);
    }
  }

  /** free keeps the ring circular, in address order and coalesced, and frees exactly bp's units. */
  lemma InsertKeeps(h: Headers, list: seq<nat>, j: nat, bp: nat)
    requires Insertable(h, list, j, bp)
    ensures list[j] in h.ptr && list[j] in h.size && h.ptr[list[j]] in h.size && h.ptr[list[j]] in h.ptr
    ensures var g, c := Inserted(h, list[j], bp), InsertedList(h, list, j, bp);
            Ring(g, c) && j < |c| && c[j] == list[j]
            && forall u: nat :: Free(g, c, u) <==> Free(h, list, u) || bp <= u < bp + h.size[bp]
  {
    Neighbours(h, list, j, bp);
    hide Insertable, Inserted, InsertedList, Ascends, Linked, Free;
    InsertAscends(h, list, j, bp);
    InsertLinked(h, list, j, bp);
    InsertedAt(h, list, j, bp, j);
    forall u: nat ensures Free(Inserted(h, list[j], bp), InsertedList(h, list, j, bp), u) <==>
                          Free(h, list, u) || bp <= u < bp + h.size[bp] {
      InsertFree(h, list, j, bp, u);
    }
  }

  // ---- taking ----

  /** The block before list[k] now leads to the one after it. */
  function Unlinked(h: Headers, list: seq<nat>, k: nat): Headers
    requires 0 < k < |list| && list[k] in h.ptr
  {
    h.(ptr := h.ptr[list[k - 1] := h.ptr[list[k]]])
  }

  // list without its element k.
  function Minus(list: seq<nat>, k: nat): seq<nat>
    requires k < |list|
  {
    list[..k] + list[k + 1..]
  }

  lemma MinusSize(list: seq<nat>, k: nat)
    requires k < |list|
    ensures |Minus(list, k)| == |list| - 1
  {
  }

  lemma MinusAt(list: seq<nat>, k: nat, i: nat)
    requires k < |list| && i < |Minus(list, k)|
    ensures |Minus(list, k)| == |list| - 1 && Minus(list, k)[i] == list[if i < k then i else i + 1]
  {
  }

  lemma UnlinkRing(h: Headers, list: seq<nat>, k: nat)
    requires Ring(h, list) && 0 < k < |list| && list[k] in h.ptr
    ensures Ring(Unlinked(h, list, k), Minus(list, k))
  {
    var g, c := Unlinked(h, list, k), Minus(list, k);
    hide Minus;
    MinusSize(list, k);
    MinusAt(list, k, 0);
    forall i | 0 <= i < |c|
      ensures c[i] in g.size && (if i == 0 then g.size[c[i]] == 0 else g.size[c[i]] > 0)
    {
      MinusAt(list, k, i);
    }
    forall i, j | 0 <= i < j < |c| ensures c[i] + g.size[c[i]] < c[j] {
      MinusAt(list, k, i);
      MinusAt(list, k, j);
    }
    forall i: nat | i < |c| ensures c[i] in g.ptr && g.ptr[c[i]] == After(c, i) { UnlinkPtr(h, list, k, i); }
  }

  lemma UnlinkPtr(h: Headers, list: seq<nat>, k: nat, i: nat)
    requires Ring(h, list) && 0 < k < |list| && list[k] in h.ptr && i < |Minus(list, k)|
    ensures var g, c := Unlinked(h, list, k), Minus(list, k); c[i] in g.ptr && g.ptr[c[i]] == After(c, i)
  {
    hide Minus, Linked;
    var c := Minus(list, k);
    var o := if i < k then i else i + 1;
    MinusSize(list, k);
    MinusAt(list, k, 0);
    MinusAt(list, k, i);
    if i + 1 < |c| { MinusAt(list, k, i + 1); }
    PtrAt(h, list, o);
    PtrAt(h, list, k);
    if o < k - 1 { assert list[o] + h.size[list[o]] < list[k - 1]; }
    if o > k { assert list[k - 1] + h.size[list[k - 1]] < list[o]; }
  }

  lemma UnlinkKeeps(h: Headers, list: seq<nat>, k: nat)
    requires Ring(h, list) && 0 < k < |list|
    ensures list[k] in h.ptr && list[k] in h.size
    ensures Ring(Unlinked(h, list, k), Minus(list, k)) && |Minus(list, k)| == |list| - 1
    ensures Minus(list, k)[k - 1] == list[k - 1]
    ensures forall u: nat :: Free(Unlinked(h, list, k), Minus(list, k), u) <==>
              Free(h, list, u) && !(list[k] <= u < list[k] + h.size[list[k]])
  {
    PtrAt(h, list, k);
    UnlinkRing(h, list, k);
    MinusSize(list, k);
    MinusAt(list, k, k - 1);
    hide Ring, Minus, Free, Unlinked;
    forall u: nat ensures Free(Unlinked(h, list, k), Minus(list, k), u) <==>
                          Free(h, list, u) && !(list[k] <= u < list[k] + h.size[list[k]]) {
      UnlinkFree(h, list, k, u);
    }
  }

  lemma UnlinkFree(h: Headers, list: seq<nat>, k: nat, u: nat)
    requires Ring(h, list) && 0 < k < |list| && list[k] in h.ptr && list[k] in h.size
    ensures Free(Unlinked(h, list, k), Minus(list, k), u) <==>
              Free(h, list, u) && !(list[k] <= u < list[k] + h.size[list[k]])
  {
    hide Linked, Minus;
    var g, c := Unlinked(h, list, k), Minus(list, k);
    MinusSize(list, k);
    MinusAt(list, k, 0);
    if Free(g, c, u) {
      var i: nat :| i < |c| && InBlock(g, c, i, u);
      var o: nat := if i < k then i else i + 1;
      MinusAt(list, k, i);
      assert InBlock(h, list, o, u);
      OtherBlock(h, list, k, o, u);
    }
    if Free(h, list, u) && !(list[k] <= u < list[k] + h.size[list[k]]) {
      var i: nat :| i < |list| && InBlock(h, list, i, u);
      var o: nat := if i < k then i else i - 1;
      MinusAt(list, k, o);
      assert InBlock(g, c, o, u);
    }
  }

  lemma OtherBlock(h: Headers, list: seq<nat>, k: nat, o: nat, u: nat)
    requires Ring(h, list) && k < |list| && list[k] in h.size && o != k && InBlock(h, list, o, u)
    ensures !(list[k] <= u < list[k] + h.size[list[k]])
  {
    hide Linked;
    if o < k { assert list[o] + h.size[list[o]] < list[k]; } else { assert list[k] + h.size[list[k]] < list[o]; }
  }

  /** The last n headers of p = list[k] cut off as a block of their own. */
  function Split(h: Headers, p: nat, n: nat): Headers
    requires p in h.size && n < h.size[p]
  {
    var s := h.size[p] - n;
    h.(size := h.size[p := s][p + s := n])
  }

  // The new header is nobody else's.
  lemma SplitApart(h: Headers, list: seq<nat>, k: nat, n: nat)
    requires Ring(h, list) && 0 < k < |list| && list[k] in h.size && 0 < n < h.size[list[k]]
    ensures var q := list[k] + h.size[list[k]] - n;
            forall i :: 0 <= i < |list| ==> list[i] in h.size && list[i] != q && (i != k ==> list[i] != list[k])
  {
    hide Linked;
    forall i | 0 <= i < |list| && i != k ensures list[i] != list[k] + h.size[list[k]] - n && list[i] != list[k] {
      if i < k { assert list[i] + h.size[list[i]] < list[k]; } else { assert list[k] + h.size[list[k]] < list[i]; }
    }
  }

  lemma SplitSizes(h: Headers, list: seq<nat>, k: nat, n: nat)
    requires Ring(h, list) && 0 < k < |list| && list[k] in h.size && 0 < n < h.size[list[k]]
    ensures forall i :: 0 <= i < |list| ==>
              list[i] in h.size && list[i] in Split(h, list[k], n).size
              && Split(h, list[k], n).size[list[i]] == if i == k then h.size[list[k]] - n else h.size[list[i]]
  {
    SplitApart(h, list, k, n);
    hide Ring;
  }

  lemma SplitPtrs(h: Headers, p: nat, n: nat)
    requires p in h.size && n < h.size[p]
    ensures Split(h, p, n).ptr == h.ptr
  {
  }

  lemma SplitRing(h: Headers, list: seq<nat>, k: nat, n: nat)
    requires Ring(h, list) && 0 < k < |list| && list[k] in h.size && 0 < n < h.size[list[k]]
    ensures Ring(Split(h, list[k], n), list)
  {
    SplitSizes(h, list, k, n);
    var g := Split(h, list[k], n);
    SplitPtrs(h, list[k], n);
    hide Split;
    forall i | 0 <= i < |list|
      ensures list[i] in g.size && (if i == 0 then g.size[list[i]] == 0 else g.size[list[i]] > 0)
    {
      assert list[i] in h.size && (if i == 0 then h.size[list[i]] == 0 else h.size[list[i]] > 0);
    }
    forall i, j | 0 <= i < j < |list| ensures list[i] + g.size[list[i]] < list[j] {
      assert list[i] + h.size[list[i]] < list[j];
    }
    assert Ascends(g, list);
    forall i: nat | i < |list| ensures list[i] in g.ptr && g.ptr[list[i]] == After(list, i) { PtrAt(h, list, i); }
    assert Linked(g, list);
  }

  lemma SplitFree(h: Headers, list: seq<nat>, k: nat, n: nat, u: nat)
    requires Ring(h, list) && 0 < k < |list| && list[k] in h.size && 0 < n < h.size[list[k]]
    ensures var q := list[k] + h.size[list[k]] - n;
            Free(Split(h, list[k], n), list, u) <==> Free(h, list, u) && !(q <= u < q + n)
  {
    hide Linked;
    SplitSizes(h, list, k, n);
    var g, q := Split(h, list[k], n), list[k] + h.size[list[k]] - n;
    hide Split;
    if Free(g, list, u) {
      var i: nat :| i < |list| && InBlock(g, list, i, u);
      assert InBlock(h, list, i, u);
    }
    if Free(h, list, u) && !(q <= u < q + n) {
      var i: nat :| i < |list| && InBlock(h, list, i, u);
      assert InBlock(g, list, i, u);
    }
  }

  lemma SplitKeeps(h: Headers, list: seq<nat>, k: nat, n: nat)
    requires Ring(h, list) && 0 < k < |list| && list[k] in h.size && 0 < n < h.size[list[k]]
    ensures Ring(Split(h, list[k], n), list)
    ensures var q := list[k] + h.size[list[k]] - n;
            q !in list && forall u: nat :: Free(Split(h, list[k], n), list, u) <==>
                Free(h, list, u) && !(q <= u < q + n)
  {
    SplitApart(h, list, k, n);
    SplitRing(h, list, k, n);
    hide Split, Free, Ring;
    forall u: nat ensures Free(Split(h, list[k], n), list, u) <==>
                          Free(h, list, u) && !(list[k] + h.size[list[k]] - n <= u < list[k] + h.size[list[k]]) {
      SplitFree(h, list, k, n, u);
    }
  }
}
